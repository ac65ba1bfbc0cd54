/** Planning a connection backfill from legacy integration records. */
module BackfillPlanner {
  import opened Wrappers
  import Sorting

  /** Listed in the alphabetical order of their values. */
  datatype Capability = Calendar | Email | Storage

  datatype Candidate = Candidate(
    workspace: nat, organization: nat, cell: nat, user: nat, account: string,
    capability: Capability, sourceRecord: string, sourceChecksum: string, eligible: bool)

  datatype Evidence = Evidence(capability: Capability, sourceRecord: string, sourceChecksum: string, eligible: bool)
  datatype Payload = Payload(workspace: nat, connection: string, account: string, records: seq<Evidence>)

  datatype Plan = Plan(workspace: nat, connection: string, account: string, capabilities: seq<Capability>,
                       sourceRecords: seq<string>, payload: Payload, checksum: string, needsReauthorization: bool)

  datatype Error = NoCandidates | MixedBoundary | MixedPlacement | DuplicateCapability

  /** The name-based identity of a connection, and the checksum of the canonical payload. */
  datatype Naming = Naming(connection: (nat, string) -> string, checksum: Payload -> string)

  // ----- Sorting by capability, then source record -----

  function Rank(c: Capability): int {
    match c
    case Calendar => 0
    case Email => 1
    case Storage => 2
  }

  function TextBefore(a: string, b: string): bool {
    if b == "" then false
    else if a == "" then true
    else a[0] < b[0] || (a[0] == b[0] && TextBefore(a[1..], b[1..]))
  }

  predicate Before(a: Candidate, b: Candidate) {
    Rank(a.capability) < Rank(b.capability)
    || (a.capability == b.capability && TextBefore(a.sourceRecord, b.sourceRecord))
  }

  function Insert(x: Candidate, s: seq<Candidate>): seq<Candidate> {
    if s == [] || !Before(s[0], x) then [x] + s else [s[0]] + Insert(x, s[1..])
  }

  /** The stable sort. */
  function Sorted(s: seq<Candidate>): seq<Candidate> {
    if s == [] then [] else Insert(s[0], Sorted(s[1..]))
  }

  ghost predicate ByRank(s: seq<Candidate>) {
    forall i, j :: 0 <= i < j < |s| ==> Rank(s[i].capability) <= Rank(s[j].capability)
  }

  lemma {:induction false} InsertPermutes(x: Candidate, s: seq<Candidate>)
    ensures multiset(Insert(x, s)) == multiset(s) + multiset{x}
  {
    if s != [] && Before(s[0], x) {
      InsertPermutes(x, s[1..]);
      assert s == [s[0]] + s[1..];
    }
  }

  ghost predicate NoneBelow(rank: int, s: seq<Candidate>) {
    forall i :: 0 <= i < |s| ==> rank <= Rank(s[i].capability)
  }

  lemma {:induction false} InsertOrders(x: Candidate, s: seq<Candidate>, floor: int)
    requires ByRank(s)
    ensures ByRank(Insert(x, s))
    ensures NoneBelow(floor, s) && floor <= Rank(x.capability) ==> NoneBelow(floor, Insert(x, s))
  {
    if s != [] && Before(s[0], x) {
      InsertOrders(x, s[1..], Rank(s[0].capability));
      if NoneBelow(floor, s) && floor <= Rank(x.capability) {
        InsertOrders(x, s[1..], floor);
      }
    }
  }

  lemma {:induction false} SortedOrders(s: seq<Candidate>)
    ensures ByRank(Sorted(s)) && multiset(Sorted(s)) == multiset(s)
  {
    if s != [] {
      SortedOrders(s[1..]);
      InsertOrders(s[0], Sorted(s[1..]), 0);
      InsertPermutes(s[0], Sorted(s[1..]));
      assert s == [s[0]] + s[1..];
    }
  }

  /** `a` comes before `b` as text: it is a proper prefix, or lower at the first difference. */
  lemma {:induction false} TextOrder(a: string, b: string)
    ensures TextBefore(a, b) <==>
              exists k: nat :: k <= |a| && k < |b| && a[..k] == b[..k] && (k == |a| || a[k] < b[k])
  {
    if b != "" && a != "" {
      TextOrder(a[1..], b[1..]);
      if TextBefore(a, b) {
        if a[0] < b[0] {
          assert a[..0] == b[..0];
        } else {
          var k: nat :| k <= |a[1..]| && k < |b[1..]| && a[1..][..k] == b[1..][..k]
              && (k == |a[1..]| || a[1..][k] < b[1..][k]);
          assert a[..k + 1] == [a[0]] + a[1..][..k] && b[..k + 1] == [b[0]] + b[1..][..k];
        }
      }
      forall k: nat | k <= |a| && k < |b| && a[..k] == b[..k] && (k == |a| || a[k] < b[k]) ensures TextBefore(a, b) {
        if k > 0 {
          assert a[0] == a[..k][0] == b[..k][0] == b[0];
          assert a[1..][..k - 1] == a[..k][1..] == b[..k][1..] == b[1..][..k - 1];
        }
      }
    } else if b != "" {
      assert a[..0] == b[..0];
    }
  }

  lemma {:induction false} TextNotBeforeItself(a: string)
    ensures !TextBefore(a, a)
  {
    if a != "" {
      TextNotBeforeItself(a[1..]);
    }
  }

  lemma {:induction false} TextOneWay(a: string, b: string)
    ensures TextBefore(a, b) ==> !TextBefore(b, a)
  {
    if a != "" && b != "" {
      TextOneWay(a[1..], b[1..]);
    }
  }

  lemma {:induction false} TextNotAfter(a: string, b: string, c: string)
    requires !TextBefore(b, a) && !TextBefore(c, b)
    ensures !TextBefore(c, a)
  {
    if a != "" && b != "" && c != "" && a[0] == b[0] == c[0] {
      TextNotAfter(a[1..], b[1..], c[1..]);
    }
  }

  lemma NotAfter(a: Candidate, b: Candidate, c: Candidate)
    ensures !Before(b, a) && !Before(c, b) ==> !Before(c, a)
    ensures Before(a, b) ==> !Before(b, a)
  {
    TextOneWay(a.sourceRecord, b.sourceRecord);
    if !TextBefore(b.sourceRecord, a.sourceRecord) && !TextBefore(c.sourceRecord, b.sourceRecord) {
      TextNotAfter(a.sourceRecord, b.sourceRecord, c.sourceRecord);
    }
  }

  ghost predicate InOrder(s: seq<Candidate>) {
    forall i, j :: 0 <= i < j < |s| ==> !Before(s[j], s[i])
  }

  ghost predicate NoneBefore(x: Candidate, s: seq<Candidate>) {
    forall i :: 0 <= i < |s| ==> !Before(s[i], x)
  }

  lemma {:induction false} InsertKeepsOrder(x: Candidate, s: seq<Candidate>, floor: Candidate)
    requires InOrder(s)
    ensures InOrder(Insert(x, s))
    ensures NoneBefore(floor, s) && !Before(x, floor) ==> NoneBefore(floor, Insert(x, s))
  {
    if s != [] && Before(s[0], x) {
      var rest := s[1..];
      assert NoneBefore(s[0], rest);
      NotAfter(s[0], x, x);
      InsertKeepsOrder(x, rest, s[0]);
      InsertKeepsOrder(x, rest, floor);
    } else if s != [] {
      forall i | 0 <= i < |s| ensures !Before(s[i], x) {
        NotAfter(x, s[0], s[i]);
        NotAfter(s[0], s[0], s[0]);
      }
    }
  }

  /** The sort goes by capability and then by source record. */
  lemma {:induction false} SortedByRecord(s: seq<Candidate>)
    ensures InOrder(Sorted(s))
    ensures forall i, j :: 0 <= i < j < |Sorted(s)| ==>
              var a, b := Sorted(s)[i], Sorted(s)[j];
              && (a.capability == Calendar || b.capability == Storage || a.capability == b.capability)
              && (a.capability == b.capability ==> !TextBefore(b.sourceRecord, a.sourceRecord))
  {
    if s != [] {
      SortedByRecord(s[1..]);
      InsertKeepsOrder(s[0], Sorted(s[1..]), s[0]);
    }
    forall i, j | 0 <= i < j < |Sorted(s)|
      ensures !(Before(Sorted(s)[j], Sorted(s)[i]))
    {
    }
  }

  // ----- The plan -----

  function Boundaries(records: seq<Candidate>): set<(nat, string)> {
    set r | r in records :: (r.workspace, r.account)
  }

  function Capabilities(records: seq<Candidate>): set<Capability> {
    set r | r in records :: r.capability
  }

  predicate SamePlacement(a: Candidate, b: Candidate) {
    a.organization == b.organization && a.cell == b.cell && a.user == b.user
  }

  /** Why sorted records are refused. */
  function Rejection(records: seq<Candidate>): Option<Error> {
    if records == [] then Some(NoCandidates)
    else if |Boundaries(records)| != 1 then Some(MixedBoundary)
    else if exists r :: r in records && !SamePlacement(r, records[0]) then Some(MixedPlacement)
    else if |Capabilities(records)| != |records| then Some(DuplicateCapability)
    else None
  }

  function EvidenceOf(c: Candidate): Evidence {
    Evidence(c.capability, c.sourceRecord, c.sourceChecksum, c.eligible)
  }

  function Describe(n: Naming, records: seq<Candidate>): Plan
    requires records != []
  {
    var first := records[0];
    var connection := n.connection(first.workspace, first.account);
    var payload := Payload(first.workspace, connection, first.account,
                           seq(|records|, i requires 0 <= i < |records| => EvidenceOf(records[i])));
    Plan(first.workspace, connection, first.account,
         seq(|records|, i requires 0 <= i < |records| => records[i].capability),
         seq(|records|, i requires 0 <= i < |records| => records[i].sourceRecord),
         payload, n.checksum(payload), exists r :: r in records && !r.eligible)
  }

  function MakePlan(n: Naming, candidates: seq<Candidate>): Result<Plan, Error> {
    var records := Sorted(candidates);
    match Rejection(records)
    case Some(e) => Err(e)
    case None => Ok(Describe(n, records))
  }

  ghost predicate Distinct(s: seq<Candidate>) {
    forall i, j :: 0 <= i < j < |s| ==> s[i].capability != s[j].capability
  }

  lemma {:induction false} DistinctWhenCounted(s: seq<Candidate>)
    ensures |Capabilities(s)| <= |s|
    ensures |Capabilities(s)| == |s| <==> Distinct(s)
  {
    if s != [] {
      DistinctWhenCounted(s[1..]);
      DistinctStep(s);
      CapabilitiesStep(s);
    }
  }

  lemma CapabilitiesStep(s: seq<Candidate>)
    requires s != []
    ensures |Capabilities(s)| == |Capabilities(s[1..])| + if s[0].capability in Capabilities(s[1..]) then 0 else 1
  {
    assert s == [s[0]] + s[1..];
    assert Capabilities(s) == Capabilities(s[1..]) + {s[0].capability};
  }

  lemma DistinctStep(s: seq<Candidate>)
    requires s != []
    ensures Distinct(s) <==> Distinct(s[1..]) && s[0].capability !in Capabilities(s[1..])
  {
    var rest := s[1..];
    assert forall i :: 0 < i < |s| ==> s[i] == rest[i - 1];
    if Distinct(s) {
      forall r | r in rest ensures r.capability != s[0].capability {
        var i :| 0 <= i < |rest| && rest[i] == r;
        assert s[i + 1] == r;
      }
    }
    if Distinct(rest) && s[0].capability !in Capabilities(rest) {
      forall j | 0 < j < |s| ensures s[0].capability != s[j].capability {
        assert rest[j - 1] in rest;
      }
    }
  }

  /** Accepted candidates have one sorted order only. */
  lemma OneSortedOrder(a: seq<Candidate>, b: seq<Candidate>)
    requires multiset(a) == multiset(b) && |Capabilities(Sorted(b))| == |Sorted(b)|
    ensures Sorted(a) == Sorted(b)
  {
    SortedOrders(a);
    SortedOrders(b);
    var s := Sorted(b);
    DistinctWhenCounted(s);
    forall i, j | 0 <= i < j < |s| ensures Rank(s[i].capability) < Rank(s[j].capability) {
      assert s[i].capability != s[j].capability;
    }
    Sorting.SortedOnDistinctKeys(Sorted(a), s, (c: Candidate) => Rank(c.capability));
  }

  /** The order in which the candidates come does not matter: the same plan with the same
      checksum, or the same rejection. */
  lemma PlanIgnoresOrder(n: Naming, a: seq<Candidate>, b: seq<Candidate>)
    requires multiset(a) == multiset(b)
    ensures MakePlan(n, a) == MakePlan(n, b)
  {
    SortedOrders(a);
    SortedOrders(b);
    SameRejection(Sorted(a), Sorted(b));
    if Rejection(Sorted(b)) == None {
      OneSortedOrder(a, b);
    }
  }

  lemma SameRejection(s: seq<Candidate>, t: seq<Candidate>)
    requires multiset(s) == multiset(t)
    ensures Rejection(s) == Rejection(t)
  {
    assert |s| == |multiset(s)| == |multiset(t)| == |t|;
    forall r ensures r in s <==> r in t {
      assert r in s <==> r in multiset(s);
    }
    assert Boundaries(s) == Boundaries(t);
    assert Capabilities(s) == Capabilities(t);
    if s != [] {
      SamePlacementVerdict(s, t);
    }
  }

  lemma SamePlacementVerdict(s: seq<Candidate>, t: seq<Candidate>)
    requires s != [] && t != [] && forall r :: r in s <==> r in t
    ensures (exists r :: r in s && !SamePlacement(r, s[0])) <==> (exists r :: r in t && !SamePlacement(r, t[0]))
  {
    assert s[0] in t && t[0] in s;
  }

  /** All records belong to one account, one placement and one user. */
  ghost predicate OneOwner(s: seq<Candidate>) {
    forall a, b :: a in s && b in s ==>
      && a.workspace == b.workspace && a.account == b.account
      && a.organization == b.organization && a.cell == b.cell && a.user == b.user
  }

  lemma SameMembers(candidates: seq<Candidate>)
    ensures |Sorted(candidates)| == |candidates| && Capabilities(Sorted(candidates)) == Capabilities(candidates)
    ensures forall r :: r in Sorted(candidates) <==> r in candidates
  {
    var s := Sorted(candidates);
    SortedOrders(candidates);
    assert |s| == |multiset(s)| == |multiset(candidates)| == |candidates|;
    forall r ensures r in s <==> r in candidates {
      assert r in s <==> r in multiset(s);
    }
  }

  /** A plan is made exactly for a nonempty list of records of one owner with one record a
      capability, ... */
  lemma PlannedIff(n: Naming, candidates: seq<Candidate>)
    ensures MakePlan(n, candidates).Ok? <==> candidates != [] && OneOwner(candidates) && Distinct(candidates)
  {
    var s := Sorted(candidates);
    SameMembers(candidates);
    DistinctWhenCounted(candidates);
    if s != [] {
      OneBoundary(s);
    }
  }

  /** ... and it lists each of them once. */
  lemma PlanListsEachOnce(n: Naming, candidates: seq<Candidate>)
    requires MakePlan(n, candidates).Ok?
    ensures var plan := MakePlan(n, candidates).value;
            && |plan.payload.records| == |candidates|
            && (forall c :: c in candidates ==>
                  Evidence(c.capability, c.sourceRecord, c.sourceChecksum, c.eligible) in plan.payload.records)
            && (plan.needsReauthorization <==> exists c :: c in candidates && !c.eligible)
  {
    var s := Sorted(candidates);
    SameMembers(candidates);
    forall c | c in candidates ensures EvidenceOf(c) in Describe(n, s).payload.records {
      var i :| 0 <= i < |s| && s[i] == c;
      assert Describe(n, s).payload.records[i] == EvidenceOf(c);
    }
  }

  /** The records come by capability, calendar before mail before storage, and the lists of
      capabilities and of source records run alongside. The plan is for the account all
      candidates share and names its connection after it; the payload repeats both and is
      what the checksum is taken of. */
  lemma PlanIsCanonical(n: Naming, candidates: seq<Candidate>, c: Candidate, i: nat, j: nat)
    requires MakePlan(n, candidates).Ok? && c in candidates && i < j < |candidates|
    ensures var plan := MakePlan(n, candidates).value;
            var records := plan.payload.records;
            && |plan.capabilities| == |plan.sourceRecords| == |records| == |candidates|
            && plan.capabilities[i] == records[i].capability && plan.sourceRecords[i] == records[i].sourceRecord
            && (records[i].capability == Calendar || records[j].capability == Storage)
            && plan.workspace == c.workspace && plan.account == c.account
            && plan.connection == n.connection(c.workspace, c.account)
            && plan.payload.workspace == c.workspace && plan.payload.account == c.account
            && plan.payload.connection == plan.connection
            && plan.checksum == n.checksum(plan.payload)
  {
    var s := Sorted(candidates);
    SortedOrders(candidates);
    SameMembers(candidates);
    PlannedIff(n, candidates);
    DistinctWhenCounted(s);
    assert s[0] in s && s[i].capability != s[j].capability && Rank(s[i].capability) <= Rank(s[j].capability);
  }

  /** Why candidates are refused: none at all, several accounts, several placements, and
      only then a capability twice. */
  lemma RefusedInOrder(n: Naming, candidates: seq<Candidate>)
    ensures var r := MakePlan(n, candidates);
            var oneAccount := forall a, b :: a in candidates && b in candidates ==>
                a.workspace == b.workspace && a.account == b.account;
            && (r == Err(NoCandidates) <==> candidates == [])
            && (r == Err(MixedBoundary) <==> candidates != [] && !oneAccount)
            && (r == Err(MixedPlacement) <==> candidates != [] && oneAccount && !OneOwner(candidates))
            && (r == Err(DuplicateCapability) <==> candidates != [] && OneOwner(candidates) && !Distinct(candidates))
  {
    var s := Sorted(candidates);
    SameMembers(candidates);
    DistinctWhenCounted(candidates);
    if s != [] {
      OneBoundary(s);
      assert s[0] in s;
    }
  }

  lemma OneBoundary(s: seq<Candidate>)
    requires s != []
    ensures |Boundaries(s)| == 1 <==> forall r :: r in s ==> r.workspace == s[0].workspace && r.account == s[0].account
  {
    var first := (s[0].workspace, s[0].account);
    assert first in Boundaries(s);
    if |Boundaries(s)| == 1 {
      assert |Boundaries(s) - {first}| == 0;
      forall r | r in s ensures (r.workspace, r.account) == first {
        assert (r.workspace, r.account) in Boundaries(s);
      }
    }
    if forall r :: r in s ==> r.workspace == s[0].workspace && r.account == s[0].account {
      assert Boundaries(s) == {first};
    }
  }
}
