/** Document custody as a state machine: what each service call does to the database rows
    and to the object store. */
module Custody {
  import opened Wrappers

  type Id = nat
  type Content = string
  type Digest = string

  datatype Classification = Public | Internal | Confidential | Restricted
  datatype Verdict = Pending | Clean | Infected | ScanError
  datatype CustodyStatus = Quarantined | Verified | Rejected | Removed
  datatype Disposition = LegalHold | Retention | Eligible
  datatype DeletionStatus = Requested | Blocked | Failed | Completed

  /** Object keys are built from the version's identity and its content hash. */
  datatype Key = QuarantineKey(version: Id, digest: Digest) | ObjectKey(version: Id, digest: Digest)

  datatype Document = Document(active: bool, classification: Classification, legalHold: bool,
                               retainUntil: Option<int>, stateVersion: nat)
  datatype Version = Version(document: Id, hash: Digest, status: CustodyStatus, verdict: Verdict,
                             mediaVerified: bool, classification: Classification)
  datatype Derivative = Derivative(version: Id, input: Digest, deleted: bool, classification: Classification)
  datatype Chunk = Chunk(text: string, classification: Classification, deleted: bool)
  datatype Deletion = Deletion(document: Id, status: DeletionStatus, disposition: Disposition)

  /** The tables and the object store. `order` lists the versions by version number;
      `harmed` remembers the documents of which a deletion failed midway. */
  datatype State = State(
    documents: map<Id, Document>, versions: map<Id, Version>, order: seq<Id>,
    derivatives: map<Id, Derivative>, chunks: map<(Id, nat), Chunk>,
    deletions: map<Id, Deletion>, objects: map<Key, Content>, harmed: set<Id>)

  const EMPTY := State(map[], map[], [], map[], map[], map[], map[], {})

  /** SHA-256, text normalisation, the derivative digest, and whether promoting an object
      leaves the quarantined copy behind (the storage port does not say). */
  datatype Environment = Environment(
    sha: Content -> Digest, strip: string -> string, inputDigest: (Digest, string) -> Digest, promoteCopies: bool)

  datatype Evidence = Evidence(hash: Digest, verdict: Verdict, mediaVerified: bool)

  /** How the object store behaves during one deletion: the call at `failAt` raises, and
      `lost` says whether that object is gone all the same. */
  datatype StorageFault = StorageFault(failAt: Option<nat>, lost: bool)

  datatype Op =
    | Create(document: Id, classification: Classification, legalHold: bool, retainUntil: Option<int>)
    | Ingest(document: Id, version: Id, content: Content, classification: Classification)
    | Verify(version: Id, evidence: Evidence)
    | Extract(derivative: Id, version: Id, processor: string, classification: Classification, texts: seq<string>)
    | RequestDeletion(deletion: Id, document: Id, now: int)
    | ProcessDeletion(deletion: Id, now: int, fault: StorageFault)
    | SetGovernance(document: Id, legalHold: bool, retainUntil: Option<int>)

  datatype Error = Missing | Exists | NotActive | Downgrade | NotQuarantined | NotVerified | Unreadable | Substituted
                 | NoChunks | NotProcessable

  datatype Step = Step(state: State, error: Option<Error>)

  // ----- The checks of the contracts module -----

  function Rank(c: Classification): nat {
    match c
    case Public => 0
    case Internal => 1
    case Confidential => 2
    case Restricted => 3
  }

  function DispositionAt(now: int, legalHold: bool, retainUntil: Option<int>): Disposition {
    if legalHold then LegalHold
    else if retainUntil.Some? && retainUntil.value > now then Retention
    else Eligible
  }

  predicate Extractable(e: Evidence, expected: Digest) {
    e.hash == expected && e.verdict.Clean? && e.mediaVerified
  }

  /** The non-blank texts with their positions in the extractor's output. */
  function Chunks(env: Environment, texts: seq<string>): seq<(nat, string)> {
    if texts == [] then [] else
      var i := |texts| - 1;
      Chunks(env, texts[..i]) + if env.strip(texts[i]) == "" then [] else [(i, env.strip(texts[i]))]
  }

  // ----- Keys -----

  function HeldKey(id: Id, v: Version): Key {
    if v.status.Verified? then ObjectKey(id, v.hash) else QuarantineKey(id, v.hash)
  }

  predicate OfDocument(s: State, version: Id, document: Id) {
    version in s.versions && s.versions[version].document == document
  }

  /** The document's versions by version number. */
  function VersionsOf(s: State, order: seq<Id>, document: Id): seq<Id> {
    if order == [] then [] else
      var last := order[|order| - 1];
      VersionsOf(s, order[..|order| - 1], document) + if OfDocument(s, last, document) then [last] else []
  }

  function KeysOf(s: State, versions: seq<Id>): seq<Key> {
    seq(|versions|, i requires 0 <= i < |versions| =>
      if versions[i] in s.versions then HeldKey(versions[i], s.versions[versions[i]])
      else QuarantineKey(versions[i], ""))
  }

  function Without(objects: map<Key, Content>, keys: seq<Key>): map<Key, Content> {
    map k | k in objects && k !in keys :: objects[k]
  }

  // ----- The service calls -----

  function Changed(s: State, document: Id): State
    requires document in s.documents
  {
    var d := s.documents[document];
    s.(documents := s.documents[document := d.(stateVersion := d.stateVersion + 1)])
  }

  function Refused(s: State, e: Error): Step { Step(s, Some(e)) }
  function Done(s: State): Step { Step(s, None) }

  function DoCreate(s: State, op: Op): Step
    requires op.Create?
  {
    if op.document in s.documents then Refused(s, Exists)
    else
      var d := Document(true, op.classification, op.legalHold, op.retainUntil, 1);
      Done(s.(documents := s.documents[op.document := d]))
  }

  function Put(env: Environment, s: State, version: Id, content: Content): State {
    s.(objects := s.objects[QuarantineKey(version, env.sha(content)) := content])
  }

  function AddVersion(s: State, id: Id, v: Version): State
    requires v.document in s.documents
  {
    Changed(s.(versions := s.versions[id := v], order := s.order + [id]), v.document)
  }

  /** The row is added after the object was put, so a constraint the row violates leaves
      the object behind. */
  function DoIngest(env: Environment, s: State, op: Op): Step
    requires op.Ingest?
  {
    if op.document !in s.documents then Refused(s, Missing)
    else if !s.documents[op.document].active then Refused(s, NotActive)
    else if Rank(op.classification) < Rank(s.documents[op.document].classification) then Refused(s, Downgrade)
    else
      var hash := env.sha(op.content);
      var put := Put(env, s, op.version, op.content);
      if op.version in s.versions
         || (exists v :: v in s.versions && s.versions[v].document == op.document && s.versions[v].hash == hash)
      then Refused(put, Exists)
      else Done(AddVersion(put, op.version, Version(op.document, hash, Quarantined, Pending, false, op.classification)))
  }

  /** The version as verification leaves it: substituted content and content the
      evidence does not clear are rejected. */
  function Judge(env: Environment, v: Version, content: Content, e: Evidence): Version {
    if env.sha(content) != v.hash then v.(status := Rejected, verdict := ScanError, mediaVerified := false)
    else v.(status := if Extractable(e, v.hash) then Verified else Rejected,
            verdict := e.verdict, mediaVerified := e.mediaVerified)
  }

  /** A verified version's object is promoted. */
  function Promoted(env: Environment, objects: map<Key, Content>, id: Id, hash: Digest): map<Key, Content>
    requires QuarantineKey(id, hash) in objects
  {
    var copied := objects[ObjectKey(id, hash) := objects[QuarantineKey(id, hash)]];
    if env.promoteCopies then copied else Without(copied, [QuarantineKey(id, hash)])
  }

  function Settle(env: Environment, s: State, id: Id, v: Version): State
    requires v.document in s.documents && QuarantineKey(id, v.hash) in s.objects
  {
    Changed(s.(versions := s.versions[id := v],
               objects := if v.status.Verified? then Promoted(env, s.objects, id, v.hash) else s.objects), v.document)
  }

  function DoVerify(env: Environment, s: State, op: Op): Step
    requires op.Verify?
  {
    if op.version !in s.versions then Refused(s, Missing) else
      var v := s.versions[op.version];
      var key := QuarantineKey(op.version, v.hash);
      if !v.status.Quarantined? then Refused(s, NotQuarantined)
      else if key !in s.objects then Refused(s, Unreadable)
      else if v.document !in s.documents then Refused(s, Missing)
      else Done(Settle(env, s, op.version, Judge(env, v, s.objects[key], op.evidence)))
  }

  function DoExtract(env: Environment, s: State, op: Op): Step
    requires op.Extract?
  {
    if op.version !in s.versions then Refused(s, Missing) else
      var v := s.versions[op.version];
      var input := env.inputDigest(v.hash, op.processor);
      var key := ObjectKey(op.version, v.hash);
      var found := Chunks(env, op.texts);
      if !v.status.Verified? then Refused(s, NotVerified)
      else if Rank(op.classification) < Rank(v.classification) then Refused(s, Downgrade)
      else if exists d :: && d in s.derivatives && s.derivatives[d].version == op.version
                          && s.derivatives[d].input == input
      then Done(s)
      else if key !in s.objects then Refused(s, Unreadable)
      else if env.sha(s.objects[key]) != v.hash then Refused(s, Substituted)
      else if found == [] then Refused(s, NoChunks)
      else if op.derivative in s.derivatives then Refused(s, Exists)
      else if v.document !in s.documents then Refused(s, Missing)
      else Done(AddDerivative(s, op.derivative, Derivative(op.version, input, false, op.classification), found,
                              v.document))
  }

  function AddDerivative(s: State, id: Id, d: Derivative, found: seq<(nat, string)>, document: Id): State
    requires document in s.documents
  {
    Changed(s.(derivatives := s.derivatives[id := d], chunks := AddChunks(s.chunks, id, d.classification, found)),
            document)
  }

  function AddChunks(chunks: map<(Id, nat), Chunk>, derivative: Id, c: Classification,
                     found: seq<(nat, string)>): map<(Id, nat), Chunk> {
    if found == [] then chunks else
      var last := found[|found| - 1];
      AddChunks(chunks, derivative, c, found[..|found| - 1])[(derivative, last.0) := Chunk(last.1, c, false)]
  }

  function DoRequestDeletion(s: State, op: Op): Step
    requires op.RequestDeletion?
  {
    if op.document !in s.documents then Refused(s, Missing)
    else if op.deletion in s.deletions then Refused(s, Exists)
    else
      var d := s.documents[op.document];
      var disposition := DispositionAt(op.now, d.legalHold, d.retainUntil);
      var status := if disposition.Eligible? then Requested else Blocked;
      Done(Changed(s.(deletions := s.deletions[op.deletion := Deletion(op.document, status, disposition)]),
                   op.document))
  }

  /** A hold or retention found when the queued deletion is processed. */
  function BlockDeletion(s: State, id: Id, why: Disposition): State
    requires id in s.deletions && s.deletions[id].document in s.documents
  {
    Changed(s.(deletions := s.deletions[id := s.deletions[id].(status := Blocked, disposition := why)]),
            s.deletions[id].document)
  }

  /** The store gave up after removing the objects `gone`. */
  function FailDeletion(s: State, id: Id, gone: seq<Key>): State
    requires id in s.deletions && s.deletions[id].document in s.documents
  {
    Changed(s.(objects := Without(s.objects, gone),
               deletions := s.deletions[id := s.deletions[id].(status := Failed)],
               harmed := s.harmed + {s.deletions[id].document}), s.deletions[id].document)
  }

  function BeforeErasing(s: State, id: Id, gone: seq<Key>): State
    requires id in s.deletions
  {
    s.(objects := Without(s.objects, gone), deletions := s.deletions[id := s.deletions[id].(status := Completed)])
  }

  function CompleteDeletion(s: State, id: Id, gone: seq<Key>): State
    requires id in s.deletions && s.deletions[id].document in s.documents
  {
    Changed(Erased(BeforeErasing(s, id, gone), s.deletions[id].document), s.deletions[id].document)
  }

  function DeletionKeys(s: State, document: Id): seq<Key> {
    KeysOf(s, VersionsOf(s, s.order, document))
  }

  predicate Fails(fault: StorageFault, keys: seq<Key>) {
    fault.failAt.Some? && fault.failAt.value < |keys|
  }

  /** The objects gone once the store has failed, or all of them. */
  function Gone(fault: StorageFault, keys: seq<Key>): seq<Key> {
    if Fails(fault, keys) then keys[..fault.failAt.value + if fault.lost then 1 else 0] else keys
  }

  function DoProcessDeletion(s: State, op: Op): Step
    requires op.ProcessDeletion?
  {
    if op.deletion !in s.deletions then Refused(s, Missing) else
      var deletion := s.deletions[op.deletion];
      if deletion.status.Completed? then Done(s)
      else if deletion.status.Blocked? then Refused(s, NotProcessable)
      else if deletion.document !in s.documents then Refused(s, Missing)
      else
        var d := s.documents[deletion.document];
        var found := DispositionAt(op.now, d.legalHold, d.retainUntil);
        var keys := DeletionKeys(s, deletion.document);
        if !found.Eligible? then Done(BlockDeletion(s, op.deletion, found))
        else if Fails(op.fault, keys) then Done(FailDeletion(s, op.deletion, Gone(op.fault, keys)))
        else Done(CompleteDeletion(s, op.deletion, keys))
  }

  /** Every chunk blanked, every derivative and version marked deleted, then the document. */
  function Erased(s: State, document: Id): State
    requires document in s.documents
  {
    s.(chunks := BlankedChunks(s, document), derivatives := MarkedDerivatives(s, document),
       versions := MarkedVersions(s, document),
       documents := s.documents[document := s.documents[document].(active := false)])
  }

  function BlankedChunks(s: State, document: Id): map<(Id, nat), Chunk> {
    map c | c in s.chunks ::
      if ChunkOf(s, c.0, document) then s.chunks[c].(text := "", deleted := true) else s.chunks[c]
  }

  function MarkedDerivatives(s: State, document: Id): map<Id, Derivative> {
    map k | k in s.derivatives ::
      if ChunkOf(s, k, document) then s.derivatives[k].(deleted := true) else s.derivatives[k]
  }

  function MarkedVersions(s: State, document: Id): map<Id, Version> {
    map v | v in s.versions ::
      if OfDocument(s, v, document) then s.versions[v].(status := Removed) else s.versions[v]
  }

  /** The derivative comes from a version of the document. */
  predicate ChunkOf(s: State, derivative: Id, document: Id) {
    derivative in s.derivatives && OfDocument(s, s.derivatives[derivative].version, document)
  }

  function DoSetGovernance(s: State, op: Op): Step
    requires op.SetGovernance?
  {
    if op.document !in s.documents then Refused(s, Missing)
    else if !s.documents[op.document].active then Refused(s, NotActive)
    else
      var d := s.documents[op.document].(legalHold := op.legalHold, retainUntil := op.retainUntil);
      Done(Changed(s.(documents := s.documents[op.document := d]), op.document))
  }

  function Apply(env: Environment, s: State, op: Op): Step {
    match op
    case Create(_, _, _, _) => DoCreate(s, op)
    case Ingest(_, _, _, _) => DoIngest(env, s, op)
    case Verify(_, _) => DoVerify(env, s, op)
    case Extract(_, _, _, _, _) => DoExtract(env, s, op)
    case RequestDeletion(_, _, _) => DoRequestDeletion(s, op)
    case ProcessDeletion(_, _, _) => DoProcessDeletion(s, op)
    case SetGovernance(_, _, _) => DoSetGovernance(s, op)
  }

  function Run(env: Environment, s: State, ops: seq<Op>): State
    decreases |ops|
  {
    if ops == [] then s else Run(env, Apply(env, s, ops[0]).state, ops[1..])
  }

  /** Reads a verified version back from the store. */
  function VerifyRestore(env: Environment, s: State, version: Id): Result<bool, Error> {
    if version !in s.versions then Err(Missing) else
      var v := s.versions[version];
      if !v.status.Verified? then Ok(false)
      else if ObjectKey(version, v.hash) !in s.objects then Err(Unreadable)
      else Ok(env.sha(s.objects[ObjectKey(version, v.hash)]) == v.hash)
  }
}
