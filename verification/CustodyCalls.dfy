/** What each custody call achieves, said in terms of the rows and objects themselves. */
module CustodyCalls {
  import opened Wrappers
  import opened Custody
  import opened CustodyInvariant
  import opened CustodyGuarantees

  // ----- Hold and retention -----

  /** A deletion that is still to be carried out is blocked exactly while its document is on
      hold or in retention; otherwise it fails if the store does and completes if not. */
  lemma HeldIffBlocked(s: State, id: Id, now: int, fault: StorageFault)
    requires id in s.deletions && s.deletions[id].document in s.documents
    requires s.deletions[id].status.Requested? || s.deletions[id].status.Failed?
    ensures var document := s.deletions[id].document;
            var d := s.documents[document];
            var step := DoProcessDeletion(s, Op.ProcessDeletion(id, now, fault));
            var t := step.state;
            var breaks := fault.failAt.Some? && fault.failAt.value < |DeletionKeys(s, document)|;
            && step.error == None && id in t.deletions && t.deletions[id].document == document
            && (t.deletions[id].status.Blocked? <==> Held(d, now))
            && (t.deletions[id].status.Failed? <==> !Held(d, now) && breaks)
            && (t.deletions[id].status.Completed? <==> !Held(d, now) && !breaks)
            && (Held(d, now) ==> t.deletions[id].disposition == if d.legalHold then LegalHold else Retention)
  {
  }

  /** And while it is held, no object, version, derivative or chunk at all is touched. */
  lemma HeldIsUntouched(s: State, id: Id, now: int, fault: StorageFault)
    requires id in s.deletions && s.deletions[id].document in s.documents
    requires Held(s.documents[s.deletions[id].document], now)
    ensures var t := DoProcessDeletion(s, Op.ProcessDeletion(id, now, fault)).state;
            t.objects == s.objects && t.versions == s.versions && t.derivatives == s.derivatives && t.chunks == s.chunks
  {
  }

  /** Any other deletion is refused or already done. */
  lemma SettledDeletions(s: State, id: Id, now: int, fault: StorageFault)
    ensures var step := DoProcessDeletion(s, Op.ProcessDeletion(id, now, fault));
            && (step.error == Some(NotProcessable) <==> id in s.deletions && s.deletions[id].status.Blocked?)
            && (id in s.deletions && s.deletions[id].status.Completed? ==> step == Step(s, None))
            && (id !in s.deletions ==> step.error == Some(Missing))
            && (step.error.Some? ==> step.state == s)
  {
  }

  /** The store loses exactly the objects held for the document's versions, in the order of
      the versions, up to the call at which it fails. */
  lemma ObjectsDeleted(s: State, id: Id, now: int, fault: StorageFault, key: Key)
    requires id in s.deletions && s.deletions[id].document in s.documents
    requires s.deletions[id].status.Requested? || s.deletions[id].status.Failed?
    requires !Held(s.documents[s.deletions[id].document], now)
    ensures var keys := DeletionKeys(s, s.deletions[id].document);
            var t := DoProcessDeletion(s, Op.ProcessDeletion(id, now, fault)).state;
            && (key in t.objects ==> key in s.objects && t.objects[key] == s.objects[key])
            && (key in t.objects <==>
                key in s.objects && !exists i :: 0 <= i < |keys| && keys[i] == key && Reached(fault, i))
  {
    var keys := DeletionKeys(s, s.deletions[id].document);
    var gone := Gone(fault, keys);
    assert DoProcessDeletion(s, Op.ProcessDeletion(id, now, fault)).state.objects == Without(s.objects, gone);
    if key in gone {
      var i :| 0 <= i < |gone| && gone[i] == key;
      assert keys[i] == key && Reached(fault, i);
    }
    forall i | 0 <= i < |keys| && keys[i] == key && Reached(fault, i) ensures key in gone {
      assert gone[i] == key;
    }
  }

  /** The `i`th delete call takes effect. */
  predicate Reached(fault: StorageFault, i: nat) {
    fault.failAt.Some? ==> i < fault.failAt.value || (i == fault.failAt.value && fault.lost)
  }

  /** A deletion can be requested once for any recorded document; it starts out blocked
      exactly if the document is held at that time. */
  lemma RequestRecorded(s: State, id: Id, document: Id, now: int)
    ensures var step := DoRequestDeletion(s, Op.RequestDeletion(id, document, now));
            var t := step.state;
            && (step.error == None <==> document in s.documents && id !in s.deletions)
            && (step.error.Some? ==> t == s)
            && (step.error == None ==>
                var d := s.documents[document];
                && t.deletions == s.deletions[id := t.deletions[id]] && t.deletions[id].document == document
                && t.deletions[id].status == (if Held(d, now) then Blocked else Requested)
                && (t.deletions[id].disposition == LegalHold <==> d.legalHold)
                && (t.deletions[id].disposition == Retention <==> Held(d, now) && !d.legalHold)
                && t.objects == s.objects && t.versions == s.versions
                && t.derivatives == s.derivatives && t.chunks == s.chunks)
  {
  }

  /** Hold and retention can be changed on an active document, and nothing else of it is. */
  lemma GovernanceSet(s: State, document: Id, legalHold: bool, retainUntil: Option<int>)
    ensures var step := DoSetGovernance(s, Op.SetGovernance(document, legalHold, retainUntil));
            var t := step.state;
            && (step.error == None <==> document in s.documents && s.documents[document].active)
            && (step.error.Some? ==> t == s)
            && (step.error == None ==>
                var d := t.documents[document];
                && d.legalHold == legalHold && d.retainUntil == retainUntil
                && d.active && d.classification == s.documents[document].classification
                && t == s.(documents := s.documents[document := d]))
  {
  }

  predicate Governs(op: Op, document: Id) { op.SetGovernance? && op.document == document }

  /** No call but its own changes a document's hold or retention. */
  lemma GovernanceStays(env: Environment, s: State, op: Op, document: Id)
    requires document in s.documents && !Governs(op, document)
    ensures var t := Apply(env, s, op).state;
            && document in t.documents && t.documents[document].legalHold == s.documents[document].legalHold
            && t.documents[document].retainUntil == s.documents[document].retainUntil
  {
    if op.ProcessDeletion? {
      DeletionKeepsGovernance(s, op, document);
    } else if op.Ingest? {
      IngestKeepsGovernance(env, s, op, document);
    } else if op.Verify? {
      VerifyKeepsGovernance(env, s, op, document);
    } else if op.Extract? {
      ExtractKeepsGovernance(env, s, op, document);
    }
  }

  lemma ExtractKeepsGovernance(env: Environment, s: State, op: Op, document: Id)
    requires document in s.documents && op.Extract?
    ensures var t := DoExtract(env, s, op).state;
            && document in t.documents && t.documents[document].legalHold == s.documents[document].legalHold
            && t.documents[document].retainUntil == s.documents[document].retainUntil
  {
  }

  lemma IngestKeepsGovernance(env: Environment, s: State, op: Op, document: Id)
    requires document in s.documents && op.Ingest?
    ensures var t := DoIngest(env, s, op).state;
            && document in t.documents && t.documents[document].legalHold == s.documents[document].legalHold
            && t.documents[document].retainUntil == s.documents[document].retainUntil
  {
  }

  lemma VerifyKeepsGovernance(env: Environment, s: State, op: Op, document: Id)
    requires document in s.documents && op.Verify?
    ensures var t := DoVerify(env, s, op).state;
            && document in t.documents && t.documents[document].legalHold == s.documents[document].legalHold
            && t.documents[document].retainUntil == s.documents[document].retainUntil
  {
  }

  lemma DeletionKeepsGovernance(s: State, op: Op, document: Id)
    requires document in s.documents && op.ProcessDeletion?
    ensures var t := DoProcessDeletion(s, op).state;
            && document in t.documents && t.documents[document].legalHold == s.documents[document].legalHold
            && t.documents[document].retainUntil == s.documents[document].retainUntil
  {
    DocumentsAfterDeletion(s, op);
  }

  /** A deletion that goes through touches its own document's row: the version counter, and
      when it completes the document is no longer active. */
  lemma DocumentsAfterDeletion(s: State, op: Op)
    requires op.ProcessDeletion?
    ensures var step := DoProcessDeletion(s, op);
            if step.error == None && !s.deletions[op.deletion].status.Completed? then
              var document := s.deletions[op.deletion].document;
              && document in s.documents
              && document in step.state.documents
              && var d, e := s.documents[document], step.state.documents[document];
              && e == d.(active := e.active, stateVersion := d.stateVersion + 1)
              && step.state.documents == s.documents[document := e]
            else step.state.documents == s.documents
  {
    if op.deletion in s.deletions && s.deletions[op.deletion].document in s.documents {
      var d := s.documents[s.deletions[op.deletion].document];
      var keys := DeletionKeys(s, s.deletions[op.deletion].document);
      DocumentsThen(s, op.deletion, DispositionAt(op.now, d.legalHold, d.retainUntil), Gone(op.fault, keys));
    }
  }

  lemma DocumentsThen(s: State, id: Id, why: Disposition, gone: seq<Key>)
    requires id in s.deletions && s.deletions[id].document in s.documents
    ensures var document := s.deletions[id].document;
            var d := s.documents[document].(stateVersion := s.documents[document].stateVersion + 1);
            && BlockDeletion(s, id, why).documents == s.documents[document := d.(active := d.active)]
            && FailDeletion(s, id, gone).documents == s.documents[document := d.(active := d.active)]
            && CompleteDeletion(s, id, gone).documents == s.documents[document := d.(active := false)]
  {
  }

  /** Once a hold or a retention is set it protects: until it is set anew or runs out,
      whatever deletions were requested before or are requested later, nothing of the
      document is removed or blanked. */
  lemma HoldProtects(env: Environment, s: State, document: Id, legalHold: bool, retainUntil: Option<int>, ops: seq<Op>)
    requires Inv(env, s) && document in s.documents && s.documents[document].active
    requires forall i :: 0 <= i < |ops| ==>
               && !Governs(ops[i], document)
               && (ops[i].ProcessDeletion? ==> legalHold || (retainUntil.Some? && ops[i].now < retainUntil.value))
    ensures var t := Apply(env, s, SetGovernance(document, legalHold, retainUntil)).state;
            Intact(t, Run(env, t, ops), document)
  {
    var op := SetGovernance(document, legalHold, retainUntil);
    ApplyKeeps(env, s, op);
    GovernanceSet(s, document, legalHold, retainUntil);
    RunStaysProtected(env, Apply(env, s, op).state, document, ops);
    ProtectedStaysIntact(env, Apply(env, s, op).state, ops, document);
  }

  lemma {:induction false} RunStaysProtected(env: Environment, s: State, document: Id, ops: seq<Op>)
    requires document in s.documents
    requires forall i :: 0 <= i < |ops| ==>
               !Governs(ops[i], document) && (ops[i].ProcessDeletion? ==> Held(s.documents[document], ops[i].now))
    ensures ProtectedRun(env, s, ops, document)
    decreases |ops|
  {
    if ops != [] {
      GovernanceStays(env, s, ops[0], document);
      RunStaysProtected(env, Apply(env, s, ops[0]).state, document, ops[1..]);
    }
  }

  // ----- Documents and versions -----

  /** Classifications in their order. */
  predicate AtLeast(a: Classification, b: Classification) {
    a == b || a.Restricted? || b.Public? || (a.Confidential? && b.Internal?)
  }

  lemma RanksOrder(a: Classification, b: Classification)
    ensures Rank(b) <= Rank(a) <==> AtLeast(a, b)
  {
  }

  lemma DocumentCreated(s: State, document: Id, c: Classification, legalHold: bool, retainUntil: Option<int>)
    ensures var step := DoCreate(s, Op.Create(document, c, legalHold, retainUntil));
            && (step.error == None <==> document !in s.documents)
            && (step.error.Some? ==> step.state == s)
            && (step.error == None ==>
                step.state == s.(documents := s.documents[document := Document(true, c, legalHold, retainUntil, 1)]))
  {
  }

  /** The document takes no version at all: unknown, inactive, or classified higher. */
  predicate Closed(s: State, document: Id, c: Classification) {
    document !in s.documents || !s.documents[document].active || !AtLeast(c, s.documents[document].classification)
  }

  predicate Known(s: State, document: Id, version: Id, hash: Digest) {
    || version in s.versions
    || exists v :: v in s.versions && s.versions[v].document == document && s.versions[v].hash == hash
  }

  /** A version is added exactly to an open document, under a new identity and with content
      the document does not have yet; it is quarantined until verified, and its content can
      be read back under its quarantine key. */
  lemma IngestOutcome(env: Environment, s: State, document: Id, version: Id, content: Content, c: Classification)
    ensures var hash := env.sha(content);
            var key := QuarantineKey(version, hash);
            var step := DoIngest(env, s, Op.Ingest(document, version, content, c));
            var t := step.state;
            && (step.error == None <==> !Closed(s, document, c) && !Known(s, document, version, hash))
            && t.objects == (if Closed(s, document, c) then s.objects else s.objects[key := content])
            && (step.error.Some? ==> t.versions == s.versions && t.documents == s.documents && t.order == s.order)
            && (step.error == None ==>
                && t.versions == s.versions[version := Version(document, hash, Quarantined, Pending, false, c)]
                && t.order == s.order + [version])
  {
    if document in s.documents {
      RanksOrder(c, s.documents[document].classification);
    }
  }

  /** Why a version is not added: the document first, what is already there last. */
  lemma IngestRefused(env: Environment, s: State, document: Id, version: Id, content: Content, c: Classification)
    ensures var e := DoIngest(env, s, Op.Ingest(document, version, content, c)).error;
            && (e == Some(Missing) <==> document !in s.documents)
            && (e == Some(NotActive) <==> document in s.documents && !s.documents[document].active)
            && (e == Some(Downgrade) <==>
                && document in s.documents && s.documents[document].active
                && !AtLeast(c, s.documents[document].classification))
            && (e == Some(Exists) <==> !Closed(s, document, c) && Known(s, document, version, env.sha(content)))
  {
    if document in s.documents {
      RanksOrder(c, s.documents[document].classification);
    }
  }

  /** Quarantined content that is there is verified exactly when it still has the recorded
      hash and the evidence is about that hash, clean, and of the declared type; then the
      same content is found under the promoted key. Otherwise it is rejected where it is. */
  lemma VerifyOutcome(env: Environment, s: State, version: Id, e: Evidence)
    requires version in s.versions && s.versions[version].document in s.documents
    ensures var v := s.versions[version];
            var key := QuarantineKey(version, v.hash);
            var step := DoVerify(env, s, Op.Verify(version, e));
            var t := step.state;
            && (step.error == None <==> v.status.Quarantined? && key in s.objects)
            && (step.error == Some(NotQuarantined) <==> !v.status.Quarantined?)
            && (step.error.Some? ==> t == s && (v.status.Quarantined? ==> step.error == Some(Unreadable)))
            && (step.error == None ==>
                var genuine := env.sha(s.objects[key]) == v.hash;
                var w := t.versions[version];
                && t.versions == s.versions[version := w]
                && w.hash == v.hash && w.document == v.document && w.classification == v.classification
                && (w.status.Verified? <==> genuine && e.hash == v.hash && e.verdict.Clean? && e.mediaVerified)
                && (!w.status.Verified? ==> w.status.Rejected? && t.objects == s.objects)
                && w.verdict == (if genuine then e.verdict else ScanError)
                && w.mediaVerified == (genuine && e.mediaVerified)
                && (w.status.Verified? ==>
                    && ObjectKey(version, v.hash) in t.objects
                    && t.objects[ObjectKey(version, v.hash)] == s.objects[key]
                    && (key in t.objects <==> env.promoteCopies)
                    && forall k :: k != key && k != ObjectKey(version, v.hash) ==>
                         (k in t.objects <==> k in s.objects) && (k in s.objects ==> t.objects[k] == s.objects[k])))
  {
  }

  /** What is not recorded is missing, what already is exists, and a retired document takes
      no new governance; such a call changes nothing. */
  lemma UnknownIsMissing(env: Environment, s: State, op: Op)
    ensures var step := Apply(env, s, op);
            && (op.Create? && op.document in s.documents ==> step == Step(s, Some(Exists)))
            && ((op.Verify? || op.Extract?) && op.version !in s.versions ==> step == Step(s, Some(Missing)))
            && ((op.RequestDeletion? || op.SetGovernance?) && op.document !in s.documents ==>
                step == Step(s, Some(Missing)))
            && (op.RequestDeletion? && op.document in s.documents && op.deletion in s.deletions ==>
                step == Step(s, Some(Exists)))
            && (op.SetGovernance? && op.document in s.documents && !s.documents[op.document].active ==>
                step == Step(s, Some(NotActive)))
  {
  }

  // ----- Extraction -----

  predicate HasDerivative(s: State, version: Id, input: Digest) {
    exists d :: d in s.derivatives && s.derivatives[d].version == version && s.derivatives[d].input == input
  }

  /** The extracted content is there and is what was recorded. */
  predicate Readable(env: Environment, s: State, version: Id)
    requires version in s.versions
  {
    var key := ObjectKey(version, s.versions[version].hash);
    key in s.objects && env.sha(s.objects[key]) == s.versions[version].hash
  }

  /** Extraction goes through exactly for a verified version, at no lower classification,
      and then either finds its derivative or has readable content with some text in it and
      a new identity; a second extraction of the same input changes nothing. */
  lemma ExtractOutcome(env: Environment, s: State, op: Op)
    requires op.Extract? && op.version in s.versions && s.versions[op.version].document in s.documents
    ensures var v := s.versions[op.version];
            var input := env.inputDigest(v.hash, op.processor);
            var found := HasDerivative(s, op.version, input);
            var step := DoExtract(env, s, op);
            var t := step.state;
            && (step.error == None <==>
                && v.status.Verified? && AtLeast(op.classification, v.classification)
                && (found
                    || (Readable(env, s, op.version) && SomeText(env, op.texts) && op.derivative !in s.derivatives)))
            && (step.error.Some? || found ==> t == s)
            && (step.error == None && !found ==>
                && t.derivatives
                    == s.derivatives[op.derivative := Derivative(op.version, input, false, op.classification)]
                && t.chunks == AddChunks(s.chunks, op.derivative, op.classification, Chunks(env, op.texts))
                && t.versions == s.versions && t.objects == s.objects && t.deletions == s.deletions)
  {
    RanksOrder(op.classification, s.versions[op.version].classification);
    SomeTextFound(env, op.texts);
  }

  predicate SomeText(env: Environment, texts: seq<string>) {
    exists p :: 0 <= p < |texts| && env.strip(texts[p]) != ""
  }

  lemma {:induction false} SomeTextFound(env: Environment, texts: seq<string>)
    ensures Chunks(env, texts) != [] <==> SomeText(env, texts)
  {
    ChunksAreTheNonBlankTexts(env, texts);
    if SomeText(env, texts) {
      var p :| 0 <= p < |texts| && env.strip(texts[p]) != "";
      assert InTexts(env, texts, p, env.strip(texts[p]));
      assert (p, env.strip(texts[p])) in Chunks(env, texts);
    }
    if Chunks(env, texts) != [] {
      var first := Chunks(env, texts)[0];
      assert (first.0, first.1) in Chunks(env, texts);
    }
  }

  /** Why an extraction is refused. */
  lemma ExtractRefused(env: Environment, s: State, op: Op)
    requires op.Extract? && op.version in s.versions && s.versions[op.version].document in s.documents
    ensures var v := s.versions[op.version];
            var e := DoExtract(env, s, op).error;
            var wanted := && v.status.Verified? && AtLeast(op.classification, v.classification)
                          && !HasDerivative(s, op.version, env.inputDigest(v.hash, op.processor));
            && (e == Some(NotVerified) <==> !v.status.Verified?)
            && (e == Some(Downgrade) <==> v.status.Verified? && !AtLeast(op.classification, v.classification))
            && (e == Some(Unreadable) <==> wanted && ObjectKey(op.version, v.hash) !in s.objects)
            && (e == Some(Substituted) <==>
                wanted && ObjectKey(op.version, v.hash) in s.objects && !Readable(env, s, op.version))
            && (e == Some(NoChunks) <==> wanted && Readable(env, s, op.version) && !SomeText(env, op.texts))
            && (e == Some(Exists) <==>
                wanted && Readable(env, s, op.version) && SomeText(env, op.texts) && op.derivative in s.derivatives)
  {
    RanksOrder(op.classification, s.versions[op.version].classification);
    SomeTextFound(env, op.texts);
  }

  /** Each text with something in it is stored under the derivative and its own position. */
  lemma {:induction false} ChunksStored(env: Environment, chunks: map<(Id, nat), Chunk>, d: Id, k: Classification,
                                        texts: seq<string>, p: nat)
    requires p < |texts| && env.strip(texts[p]) != ""
    ensures var after := AddChunks(chunks, d, k, Chunks(env, texts));
            (d, p) in after && after[(d, p)] == Chunk(env.strip(texts[p]), k, false)
  {
    var i := |texts| - 1;
    var found := Chunks(env, texts);
    if env.strip(texts[i]) != "" {
      assert found[..|found| - 1] == Chunks(env, texts[..i]);
    } else {
      assert found == Chunks(env, texts[..i]);
    }
    if p < i {
      assert texts[..i][p] == texts[p];
      ChunksStored(env, chunks, d, k, texts[..i], p);
    }
  }

  // ----- Restoring -----

  /** A version restores exactly if it is verified and its object is there with its hash. */
  lemma RestoresIff(env: Environment, s: State, version: Id)
    ensures var r := VerifyRestore(env, s, version);
            && (r == Ok(true) <==>
                version in s.versions && s.versions[version].status.Verified? && Readable(env, s, version))
            && (r == Err(Missing) <==> version !in s.versions)
            && (r == Err(Unreadable) <==>
                && version in s.versions && s.versions[version].status.Verified?
                && ObjectKey(version, s.versions[version].hash) !in s.objects)
  {
  }

  // ----- Runs and version counters -----

  /** The document whose row a call changes, if it changes one. */
  function Concerns(env: Environment, s: State, op: Op): Option<Id> {
    match op
    case Create(_, _, _, _) => None
    case Ingest(document, _, _, _) => Some(document)
    case Verify(version, _) => if version in s.versions then Some(s.versions[version].document) else None
    case Extract(_, version, processor, _, _) =>
      if version in s.versions && !HasDerivative(s, version, env.inputDigest(s.versions[version].hash, processor))
      then Some(s.versions[version].document) else None
    case RequestDeletion(_, document, _) => Some(document)
    case ProcessDeletion(id, _, _) =>
      if id in s.deletions && !s.deletions[id].status.Completed? then Some(s.deletions[id].document) else None
    case SetGovernance(document, _, _) => Some(document)
  }

  /** A call that goes through raises the version counter of the document it concerns by
      one, and a refused call and every other document leave their counter alone. */
  lemma VersionCounts(env: Environment, s: State, op: Op, document: Id)
    requires document in s.documents
    ensures Counted(env, s, op, Apply(env, s, op), document)
  {
    match op
    case Ingest(_, _, _, _) => IngestCounts(env, s, op, document);
    case Verify(_, _) => VerifyCounts(env, s, op, document);
    case Extract(_, _, _, _, _) => ExtractCounts(env, s, op, document);
    case ProcessDeletion(_, _, _) => DeletionCounts(env, s, op, document);
    case Create(_, _, _, _) =>
    case _ => RowCallCounts(env, s, op, document);
  }

  lemma RowCallCounts(env: Environment, s: State, op: Op, document: Id)
    requires (op.RequestDeletion? || op.SetGovernance?) && document in s.documents
    ensures Counted(env, s, op, Apply(env, s, op), document)
  {
  }

  /** The counter of the document after the call. */
  predicate Counted(env: Environment, s: State, op: Op, step: Step, document: Id)
    requires document in s.documents
  {
    && document in step.state.documents
    && step.state.documents[document].stateVersion
       == s.documents[document].stateVersion
          + if step.error == None && Concerns(env, s, op) == Some(document) then 1 else 0
  }

  lemma IngestCounts(env: Environment, s: State, op: Op, document: Id)
    requires op.Ingest? && document in s.documents
    ensures Counted(env, s, op, DoIngest(env, s, op), document)
  {
  }

  lemma VerifyCounts(env: Environment, s: State, op: Op, document: Id)
    requires op.Verify? && document in s.documents
    ensures Counted(env, s, op, DoVerify(env, s, op), document)
  {
  }

  lemma ExtractCounts(env: Environment, s: State, op: Op, document: Id)
    requires op.Extract? && document in s.documents
    ensures Counted(env, s, op, DoExtract(env, s, op), document)
  {
  }

  lemma DeletionCounts(env: Environment, s: State, op: Op, document: Id)
    requires op.ProcessDeletion? && document in s.documents
    ensures Counted(env, s, op, DoProcessDeletion(s, op), document)
  {
    DocumentsAfterDeletion(s, op);
  }

  /** A run is the calls one after another. */
  lemma {:induction false} RunsCompose(env: Environment, s: State, a: seq<Op>, b: seq<Op>, op: Op)
    ensures Run(env, s, a + b) == Run(env, Run(env, s, a), b)
    ensures Run(env, s, [op]) == Apply(env, s, op).state
    decreases |a|
  {
    if a == [] {
      assert a + b == b;
    } else {
      assert (a + b)[1..] == a[1..] + b;
      RunsCompose(env, Apply(env, s, a[0]).state, a[1..], b, op);
    }
  }
}
