/** The document service as it runs: every method updates the rows and the object store in
    place, one at a time, and ends in the state the state machine gives. */
module DocumentCustodyService {
  import opened Wrappers
  import opened Custody
  import opened CustodyInvariant

  class DocumentService {
    const env: Environment
    var documents: map<Id, Document>
    var versions: map<Id, Version>
    var order: seq<Id>
    var derivatives: map<Id, Derivative>
    var chunks: map<(Id, nat), Chunk>
    var deletions: map<Id, Deletion>
    var objects: map<Key, Content>
    ghost var harmed: set<Id>

    ghost function View(): State
      reads this
    {
      State(documents, versions, order, derivatives, chunks, deletions, objects, harmed)
    }

    /** The custody invariant. Every method keeps it; the methods do not demand it, since
        they also meet content that was substituted in the store. */
    ghost predicate Valid()
      reads this
    {
      Inv(env, View())
    }

    constructor (env: Environment)
      ensures this.env == env && View() == EMPTY && Valid()
    {
      this.env := env;
      documents, versions, order, derivatives, chunks := map[], map[], [], map[], map[];
      deletions, objects, harmed := map[], map[], {};
      new;
      InitialInv(env);
    }

    lemma KeepsValid(op: Op)
      ensures Valid() ==> Inv(env, Apply(env, View(), op).state)
    {
      if Valid() {
        ApplyKeeps(env, View(), op);
      }
    }

    method NoteChange(document: Id)
      requires document in documents
      modifies this`documents
      ensures View() == Changed(old(View()), document)
    {
      documents := documents[document := documents[document].(stateVersion := documents[document].stateVersion + 1)];
    }

    method Create(document: Id, classification: Classification, legalHold: bool, retainUntil: Option<int>)
      returns (error: Option<Error>)
      modifies this
      ensures Step(View(), error) == DoCreate(old(View()), Op.Create(document, classification, legalHold, retainUntil))
      ensures old(Valid()) ==> Valid()
    {
      KeepsValid(Op.Create(document, classification, legalHold, retainUntil));
      if document in documents {
        return Some(Exists);
      }
      documents := documents[document := Document(true, classification, legalHold, retainUntil, 1)];
      return None;
    }

    method Ingest(document: Id, version: Id, content: Content, classification: Classification)
      returns (error: Option<Error>)
      modifies this
      ensures Step(View(), error) == DoIngest(env, old(View()), Op.Ingest(document, version, content, classification))
      ensures old(Valid()) ==> Valid()
    {
      KeepsValid(Op.Ingest(document, version, content, classification));
      if document !in documents {
        return Some(Missing);
      }
      if !documents[document].active {
        return Some(NotActive);
      }
      if Rank(classification) < Rank(documents[document].classification) {
        return Some(Downgrade);
      }
      var hash := env.sha(content);
      objects := objects[QuarantineKey(version, hash) := content];
      if version in versions
         || exists v :: v in versions && versions[v].document == document && versions[v].hash == hash {
        return Some(Exists);
      }
      versions := versions[version := Version(document, hash, Quarantined, Pending, false, classification)];
      order := order + [version];
      NoteChange(document);
      return None;
    }

    method Verify(version: Id, evidence: Evidence) returns (error: Option<Error>)
      modifies this
      ensures Step(View(), error) == DoVerify(env, old(View()), Op.Verify(version, evidence))
      ensures old(Valid()) ==> Valid()
    {
      KeepsValid(Op.Verify(version, evidence));
      if version !in versions {
        return Some(Missing);
      }
      var v := versions[version];
      var key := QuarantineKey(version, v.hash);
      if !v.status.Quarantined? {
        return Some(NotQuarantined);
      }
      if key !in objects {
        return Some(Unreadable);
      }
      if v.document !in documents {
        return Some(Missing);
      }
      var content := objects[key];
      if env.sha(content) != v.hash {
        versions := versions[version := v.(status := Rejected, verdict := ScanError, mediaVerified := false)];
        NoteChange(v.document);
        return None;
      }
      v := v.(verdict := evidence.verdict, mediaVerified := evidence.mediaVerified);
      if !Extractable(evidence, v.hash) {
        versions := versions[version := v.(status := Rejected)];
        NoteChange(v.document);
        return None;
      }
      Promote(version, v.hash);
      versions := versions[version := v.(status := Verified)];
      NoteChange(v.document);
      return None;
    }

    /** The store's own promotion, by moving or by copying. */
    method Promote(version: Id, hash: Digest)
      requires QuarantineKey(version, hash) in objects
      modifies this`objects
      ensures objects == Promoted(env, old(objects), version, hash)
    {
      objects := objects[ObjectKey(version, hash) := objects[QuarantineKey(version, hash)]];
      if !env.promoteCopies {
        Delete(QuarantineKey(version, hash));
      }
    }

    /** Deleting an object that is not there is not an error. */
    method Delete(key: Key)
      modifies this`objects
      ensures objects == Without(old(objects), [key])
    {
      objects := objects - {key};
    }

    method BuildChunks(texts: seq<string>) returns (found: seq<(nat, string)>)
      ensures found == Chunks(env, texts)
    {
      found := [];
      for i := 0 to |texts|
        invariant found == Chunks(env, texts[..i])
      {
        assert texts[..i + 1][..i] == texts[..i];
        var normalized := env.strip(texts[i]);
        if normalized == "" {
          continue;
        }
        found := found + [(i, normalized)];
      }
      assert texts[..|texts|] == texts;
    }

    method CompleteExtraction(derivative: Id, version: Id, processor: string, classification: Classification,
                              texts: seq<string>)
      returns (error: Option<Error>)
      modifies this
      ensures Step(View(), error)
              == DoExtract(env, old(View()), Op.Extract(derivative, version, processor, classification, texts))
      ensures old(Valid()) ==> Valid()
    {
      KeepsValid(Op.Extract(derivative, version, processor, classification, texts));
      if version !in versions {
        return Some(Missing);
      }
      var v := versions[version];
      if !v.status.Verified? {
        return Some(NotVerified);
      }
      if Rank(classification) < Rank(v.classification) {
        return Some(Downgrade);
      }
      var input := env.inputDigest(v.hash, processor);
      if exists d :: d in derivatives && derivatives[d].version == version && derivatives[d].input == input {
        return None;
      }
      var key := ObjectKey(version, v.hash);
      if key !in objects {
        return Some(Unreadable);
      }
      if env.sha(objects[key]) != v.hash {
        return Some(Substituted);
      }
      var found := BuildChunks(texts);
      if found == [] {
        return Some(NoChunks);
      }
      if derivative in derivatives {
        return Some(Exists);
      }
      if v.document !in documents {
        return Some(Missing);
      }
      StoreDerivative(derivative, Derivative(version, input, false, classification), found, v.document);
      return None;
    }

    method StoreDerivative(id: Id, derivative: Derivative, found: seq<(nat, string)>, document: Id)
      requires document in documents
      modifies this`derivatives, this`chunks, this`documents
      ensures View() == AddDerivative(old(View()), id, derivative, found, document)
    {
      derivatives := derivatives[id := derivative];
      StoreChunks(id, derivative.classification, found);
      NoteChange(document);
    }

    method StoreChunks(derivative: Id, classification: Classification, found: seq<(nat, string)>)
      modifies this`chunks
      ensures chunks == AddChunks(old(chunks), derivative, classification, found)
    {
      for i := 0 to |found|
        invariant chunks == AddChunks(old(chunks), derivative, classification, found[..i])
      {
        assert found[..i + 1][..i] == found[..i];
        chunks := chunks[(derivative, found[i].0) := Chunk(found[i].1, classification, false)];
      }
      assert found[..|found|] == found;
    }

    method RequestDeletion(deletion: Id, document: Id, now: int) returns (error: Option<Error>)
      modifies this
      ensures Step(View(), error) == DoRequestDeletion(old(View()), Op.RequestDeletion(deletion, document, now))
      ensures old(Valid()) ==> Valid()
    {
      KeepsValid(Op.RequestDeletion(deletion, document, now));
      if document !in documents {
        return Some(Missing);
      }
      if deletion in deletions {
        return Some(Exists);
      }
      var disposition := DispositionAt(now, documents[document].legalHold, documents[document].retainUntil);
      var status := if disposition.Eligible? then Requested else Blocked;
      deletions := deletions[deletion := Deletion(document, status, disposition)];
      NoteChange(document);
      return None;
    }

    method SetGovernance(document: Id, legalHold: bool, retainUntil: Option<int>) returns (error: Option<Error>)
      modifies this
      ensures Step(View(), error) == DoSetGovernance(old(View()), Op.SetGovernance(document, legalHold, retainUntil))
      ensures old(Valid()) ==> Valid()
    {
      KeepsValid(Op.SetGovernance(document, legalHold, retainUntil));
      if document !in documents {
        return Some(Missing);
      }
      if !documents[document].active {
        return Some(NotActive);
      }
      documents := documents[document := documents[document].(legalHold := legalHold, retainUntil := retainUntil)];
      NoteChange(document);
      return None;
    }

    /** One deletion request carried out against a store that may fail at any delete. */
    method ProcessDeletion(id: Id, now: int, fault: StorageFault) returns (error: Option<Error>)
      modifies this
      ensures Step(View(), error) == DoProcessDeletion(old(View()), Op.ProcessDeletion(id, now, fault))
      ensures old(Valid()) ==> Valid()
    {
      KeepsValid(Op.ProcessDeletion(id, now, fault));
      if id !in deletions {
        return Some(Missing);
      }
      var deletion := deletions[id];
      if deletion.status.Completed? {
        return None;
      }
      if deletion.status.Blocked? {
        return Some(NotProcessable);
      }
      var document := deletion.document;
      if document !in documents {
        return Some(Missing);
      }
      var current := DispositionAt(now, documents[document].legalHold, documents[document].retainUntil);
      if !current.Eligible? {
        deletions := deletions[id := deletion.(status := Blocked, disposition := current)];
        NoteChange(document);
        return None;
      }
      var failed := DeleteObjects(document, fault);
      if failed {
        deletions := deletions[id := deletion.(status := Failed)];
        harmed := harmed + {document};
        NoteChange(document);
        return None;
      }
      deletions := deletions[id := deletion.(status := Completed)];
      Erase(document);
      NoteChange(document);
      return None;
    }

    /** Deletes the object of every version until the store fails. */
    method DeleteObjects(document: Id, fault: StorageFault) returns (failed: bool)
      modifies this`objects
      ensures var keys := DeletionKeys(old(View()), document);
              failed == Fails(fault, keys) && objects == Without(old(objects), Gone(fault, keys))
    {
      var listed := ListVersions(document);
      ghost var keys := DeletionKeys(View(), document);
      for i := 0 to |listed|
        invariant objects == Without(old(objects), keys[..i])
        invariant fault.failAt.Some? ==> i <= fault.failAt.value
      {
        var v := listed[i];
        var key := if v in versions then HeldKey(v, versions[v]) else QuarantineKey(v, "");
        assert keys[..i + 1] == keys[..i] + [key];
        if fault.failAt == Some(i) {
          if fault.lost {
            Delete(key);
          }
          return true;
        }
        Delete(key);
      }
      assert keys[..|listed|] == keys;
      return false;
    }

    method ListVersions(document: Id) returns (listed: seq<Id>)
      ensures listed == VersionsOf(View(), order, document)
    {
      listed := [];
      for i := 0 to |order|
        invariant listed == VersionsOf(View(), order[..i], document)
      {
        assert order[..i + 1][..i] == order[..i];
        if order[i] in versions && versions[order[i]].document == document {
          listed := listed + [order[i]];
        }
      }
      assert order[..|order|] == order;
    }

    /** Blanks the chunks, then marks derivatives, versions and the document. */
    method Erase(document: Id)
      requires document in documents
      modifies this`chunks, this`derivatives, this`versions, this`documents
      ensures View() == Erased(old(View()), document)
    {
      ghost var before := View();
      BlankChunks(document);
      SameMarks(before, View(), document);
      MarkDerivatives(document);
      SameVersionMarks(before, View(), document);
      MarkVersions(document);
      documents := documents[document := documents[document].(active := false)];
    }

    method BlankChunks(document: Id)
      modifies this`chunks
      ensures chunks == BlankedChunks(old(View()), document)
    {
      var todo := chunks.Keys;
      while todo != {}
        invariant chunks.Keys == old(chunks).Keys && todo <= chunks.Keys
        invariant forall c :: c in chunks ==>
                    chunks[c] == if c !in todo && ChunkOf(View(), c.0, document)
                                 then old(chunks)[c].(text := "", deleted := true) else old(chunks)[c]
        decreases |todo|
      {
        var c :| c in todo;
        if c.0 in derivatives && derivatives[c.0].version in versions
           && versions[derivatives[c.0].version].document == document {
          chunks := chunks[c := chunks[c].(text := "", deleted := true)];
        }
        todo := todo - {c};
      }
    }

    method MarkDerivatives(document: Id)
      modifies this`derivatives
      ensures derivatives == MarkedDerivatives(old(View()), document)
    {
      var todo := derivatives.Keys;
      while todo != {}
        invariant derivatives.Keys == old(derivatives).Keys && todo <= derivatives.Keys
        invariant forall d :: d in derivatives ==>
                    derivatives[d] == if d !in todo && OfDocument(View(), old(derivatives)[d].version, document)
                                      then old(derivatives)[d].(deleted := true) else old(derivatives)[d]
        decreases |todo|
      {
        var d :| d in todo;
        if derivatives[d].version in versions && versions[derivatives[d].version].document == document {
          derivatives := derivatives[d := derivatives[d].(deleted := true)];
        }
        todo := todo - {d};
      }
    }

    method MarkVersions(document: Id)
      modifies this`versions
      ensures versions == MarkedVersions(old(View()), document)
    {
      var todo := versions.Keys;
      while todo != {}
        invariant versions.Keys == old(versions).Keys && todo <= versions.Keys
        invariant forall v :: v in versions ==>
                    versions[v] == if v !in todo && old(versions)[v].document == document
                                   then old(versions)[v].(status := Removed) else old(versions)[v]
        decreases |todo|
      {
        var v :| v in todo;
        if versions[v].document == document {
          versions := versions[v := versions[v].(status := Removed)];
        }
        todo := todo - {v};
      }
    }
  }
}
