/** What custody promises over whole runs: restore, lineage, hold and retention. */
module CustodyGuarantees {
  import opened Wrappers
  import opened Custody
  import opened CustodyInvariant

  // ----- Verified content can be restored -----

  /** In every reachable state a verified version of a document whose deletion never failed
      midway reads back with its recorded hash. */
  lemma VerifiedRestores(env: Environment, ops: seq<Op>, version: Id)
    requires var s := Run(env, EMPTY, ops);
             version in s.versions && s.versions[version].status.Verified? && s.versions[version].document !in s.harmed
    ensures VerifyRestore(env, Run(env, EMPTY, ops), version) == Ok(true)
  {
    var s := Run(env, EMPTY, ops);
    InitialInv(env);
    ReachableInv(env, EMPTY, ops);
    assert VersionOk(s, version);
    assert ObjectOk(env, s, ObjectKey(version, s.versions[version].hash));
  }

  /** In every reachable state: what is verified was found clean and of its declared type;
      a derivative comes from a version that was verified, one per version and input; and
      classification never drops from document to version to derivative to chunk. */
  lemma LineageHolds(env: Environment, ops: seq<Op>)
    ensures var s := Run(env, EMPTY, ops);
            && (forall v :: v in s.versions ==>
                  && s.versions[v].document in s.documents
                  && Rank(s.documents[s.versions[v].document].classification) <= Rank(s.versions[v].classification)
                  && (s.versions[v].status.Verified? ==> s.versions[v].verdict.Clean? && s.versions[v].mediaVerified))
            && (forall d :: d in s.derivatives ==>
                  && s.derivatives[d].version in s.versions
                  && (s.versions[s.derivatives[d].version].status.Verified?
                      || s.versions[s.derivatives[d].version].status.Removed?)
                  && Rank(s.versions[s.derivatives[d].version].classification) <= Rank(s.derivatives[d].classification))
            && (forall d, e :: && d in s.derivatives && e in s.derivatives && d != e
                               && s.derivatives[d].version == s.derivatives[e].version ==>
                  s.derivatives[d].input != s.derivatives[e].input)
            && (forall c :: c in s.chunks ==>
                  && c.0 in s.derivatives
                  && Rank(s.derivatives[c.0].classification) <= Rank(s.chunks[c].classification)
                  && (s.chunks[c].text == "" <==> s.derivatives[c.0].deleted))
  {
    var s := Run(env, EMPTY, ops);
    InitialInv(env);
    ReachableInv(env, EMPTY, ops);
    assert forall v :: VersionOk(s, v);
    assert forall d :: DerivativeOk(s, d);
    assert forall d, e :: OnePerInput(s, d, e);
    assert forall c :: ChunkOk(s, c);
    forall v | v in s.versions ensures VersionOk(s, v) {}
    forall d | d in s.derivatives ensures DerivativeOk(s, d) {}
    forall c | c in s.chunks ensures ChunkOk(s, c) {}
    forall d, e | d in s.derivatives && e in s.derivatives ensures OnePerInput(s, d, e) {}
  }

  /** The chunks are exactly the non-blank texts, in order and at their own positions. */
  lemma {:induction false} ChunksAreTheNonBlankTexts(env: Environment, texts: seq<string>)
    ensures var found := Chunks(env, texts);
            && (forall i, j :: 0 <= i < j < |found| ==> found[i].0 < found[j].0)
            && (forall p: nat, t :: (p, t) in found <==> InTexts(env, texts, p, t))
  {
    if texts != [] {
      var i := |texts| - 1;
      ChunksAreTheNonBlankTexts(env, texts[..i]);
      var before := Chunks(env, texts[..i]);
      var found := Chunks(env, texts);
      forall k | 0 <= k < |before| ensures before[k].0 < i {
        assert (before[k].0, before[k].1) in before;
      }
      forall p: nat, t ensures (p, t) in found <==> InTexts(env, texts, p, t) {
        assert InTexts(env, texts[..i], p, t) <==> p < i && InTexts(env, texts, p, t);
        assert (p, t) in found <==> (p, t) in before || (p == i && t == env.strip(texts[i]) && t != "");
      }
    }
  }

  predicate InTexts(env: Environment, texts: seq<string>, p: nat, t: string) {
    p < |texts| && t == env.strip(texts[p]) && t != ""
  }

  // ----- Legal hold and retention -----

  /** A version survives: still recorded under its hash, not removed, and its object still
      in the store if it was there. */
  ghost predicate VersionSurvives(s: State, t: State, v: Id) {
    && v in s.versions && v in t.versions && t.versions[v].hash == s.versions[v].hash
    && t.versions[v].document == s.versions[v].document
    && (t.versions[v].status.Removed? ==> s.versions[v].status.Removed?)
    && (HeldKey(v, s.versions[v]) in s.objects ==> HeldKey(v, t.versions[v]) in t.objects)
  }

  /** Nothing of the document is removed or blanked. */
  ghost predicate Intact(s: State, t: State, document: Id) {
    && (forall v :: OfDocument(s, v, document) ==> VersionSurvives(s, t, v))
    && (forall d :: ChunkOf(s, d, document) ==> d in t.derivatives && t.derivatives[d] == s.derivatives[d])
    && (forall c :: c in s.chunks && ChunkOf(s, c.0, document) ==> c in t.chunks && t.chunks[c] == s.chunks[c])
  }

  /** On legal hold, or with time left to retain. */
  predicate Held(d: Document, now: int) {
    d.legalHold || (d.retainUntil.Some? && d.retainUntil.value > now)
  }

  /** The document is on hold or in retention whenever a deletion is processed. */
  predicate Protected(s: State, op: Op, document: Id) {
    document in s.documents && (op.ProcessDeletion? ==> Held(s.documents[document], op.now))
  }

  predicate ProtectedRun(env: Environment, s: State, ops: seq<Op>, document: Id)
    decreases |ops|
  {
    ops != [] ==> Protected(s, ops[0], document) && ProtectedRun(env, Apply(env, s, ops[0]).state, ops[1..], document)
  }

  /** While a document stays protected, whatever was requested before and whatever fails,
      nothing of it is lost; promoting a version only moves its object. */
  lemma {:induction false} ProtectedStaysIntact(env: Environment, s: State, ops: seq<Op>, document: Id)
    requires Inv(env, s) && ProtectedRun(env, s, ops, document)
    ensures Intact(s, Run(env, s, ops), document)
    decreases |ops|
  {
    if ops != [] {
      var t := Apply(env, s, ops[0]).state;
      ProtectedStep(env, s, ops[0], document);
      ApplyKeeps(env, s, ops[0]);
      ProtectedStaysIntact(env, t, ops[1..], document);
      IntactComposes(s, t, Run(env, s, ops), document);
    }
  }

  lemma IntactComposes(s: State, t: State, u: State, document: Id)
    requires Intact(s, t, document) && Intact(t, u, document)
    ensures Intact(s, u, document)
  {
    forall v | OfDocument(s, v, document) ensures VersionSurvives(s, u, v) {
      assert VersionSurvives(s, t, v);
      assert VersionSurvives(t, u, v);
    }
    forall d | ChunkOf(s, d, document) ensures ChunkOf(t, d, document) {
      assert VersionSurvives(s, t, s.derivatives[d].version);
    }
  }

  lemma ProtectedStep(env: Environment, s: State, op: Op, document: Id)
    requires Inv(env, s) && Protected(s, op, document)
    ensures Intact(s, Apply(env, s, op).state, document)
  {
    if op.ProcessDeletion? {
      ProtectedFromDeletion(env, s, op, document);
    } else if op.Verify? {
      VerifyTouchesNoDerived(env, s, op);
      VerifyIntact(env, s, op, document);
    } else if op.Ingest? {
      IngestTouchesNoDerived(env, s, op);
      IngestIntact(env, s, op, document);
    } else if op.Extract? {
      ExtractIntact(env, s, op, document);
    } else {
      OtherCallsFrame(env, s, op);
    }
  }

  lemma IngestIntact(env: Environment, s: State, op: Op, document: Id)
    requires op.Ingest?
    ensures forall v :: OfDocument(s, v, document) ==> VersionSurvives(s, DoIngest(env, s, op).state, v)
  {
  }

  lemma VerifyIntact(env: Environment, s: State, op: Op, document: Id)
    requires op.Verify?
    ensures forall v :: OfDocument(s, v, document) ==> VersionSurvives(s, DoVerify(env, s, op).state, v)
  {
  }

  lemma AddDerivativeOnlyAdds(env: Environment, s: State, id: Id, d: Derivative, texts: seq<string>, document: Id)
    requires document in s.documents && id !in s.derivatives && forall c :: c in s.chunks ==> c.0 in s.derivatives
    ensures var t := AddDerivative(s, id, d, Chunks(env, texts), document);
            && (forall e :: e in s.derivatives ==> e in t.derivatives && t.derivatives[e] == s.derivatives[e])
            && (forall c :: c in s.chunks ==> c in t.chunks && t.chunks[c] == s.chunks[c])
  {
    ChunksAdded(env, s.chunks, id, d.classification, texts);
  }

  lemma ExtractIntact(env: Environment, s: State, op: Op, document: Id)
    requires Inv(env, s) && op.Extract?
    ensures Intact(s, DoExtract(env, s, op).state, document)
  {
    ExtractFrame(env, s, op);
    forall c | c in s.chunks ensures c.0 in s.derivatives { assert ChunkOk(s, c); }
    var step := DoExtract(env, s, op);
    if step.error == None && step.state != s {
      var v := s.versions[op.version];
      AddDerivativeOnlyAdds(env, s, op.derivative,
                            Derivative(op.version, env.inputDigest(v.hash, op.processor), false, op.classification),
                            op.texts, v.document);
    }
  }

  lemma ProtectedFromDeletion(env: Environment, s: State, op: Op, document: Id)
    requires Holdings(env, s) && op.ProcessDeletion? && Protected(s, op, document)
    ensures Intact(s, DoProcessDeletion(s, op).state, document)
  {
    UntouchedIsIntact(s, document);
    if op.deletion in s.deletions && s.deletions[op.deletion].document in s.documents {
      var other := s.deletions[op.deletion].document;
      var d := s.documents[other];
      BlockedIntact(s, op.deletion, DispositionAt(op.now, d.legalHold, d.retainUntil), document);
      if other != document {
        KeysListed(s, other);
        ElsewhereIntact(s, op.deletion, Gone(op.fault, DeletionKeys(s, other)), document);
      }
    }
  }

  lemma UntouchedIsIntact(s: State, document: Id)
    ensures Intact(s, s, document)
  {
  }

  lemma BlockedIntact(s: State, id: Id, why: Disposition, document: Id)
    requires id in s.deletions && s.deletions[id].document in s.documents
    ensures Intact(s, BlockDeletion(s, id, why), document)
  {
  }

  lemma ElsewhereIntact(s: State, id: Id, gone: seq<Key>, document: Id)
    requires id in s.deletions && s.deletions[id].document in s.documents && s.deletions[id].document != document
    requires forall k :: k in gone ==> OfDocument(s, k.version, s.deletions[id].document)
    ensures Intact(s, FailDeletion(s, id, gone), document)
    ensures Intact(s, CompleteDeletion(s, id, gone), document)
  {
    var t := CompleteDeletion(s, id, gone);
    forall v | OfDocument(s, v, document) ensures VersionSurvives(s, t, v) {
      assert !OfDocument(s, v, s.deletions[id].document);
    }
  }
}
