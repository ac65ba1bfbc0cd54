/** Durable jobs of one workspace: claiming behind the concurrency and rate gates, leases,
    retries, and what these bound over every run with a clock that does not go back. */
module JobQueue {
  import opened Arithmetic
  import opened Wrappers

  type Id = nat

  const WORKSPACE_CEILING := 20
  const LEASE := 30_000_000

  datatype DefinitionStatus = Live | Halted | Retired
  datatype Definition = Definition(status: DefinitionStatus, concurrency: int, rate: int, maxAttempts: int,
                                   delays: seq<int>)

  datatype JobStatus = Queued | Running | RetryWait | Succeeded | Cancelled | DeadLettered | Expired
  datatype Job = Job(definition: Id, status: JobStatus, availableAt: int, createdAt: int, deadline: int,
                     attempts: nat, owner: string, leaseEnds: int, cancelRequested: bool)

  /** One attempt row: the job, its attempt number, and when it started. */
  datatype Attempt = Attempt(job: Id, number: nat, startedAt: int)

  datatype State = State(definitions: map<Id, Definition>, jobs: map<Id, Job>, attempts: seq<Attempt>,
                         halted: bool, haltedDefinitions: set<Id>, clock: int)

  datatype Category = Transient | RateLimit | Quota | Permanent | Authorization | Validation | CancelledWork
                    | Deadline | Poison

  /** A heartbeat that observes a cancellation records it and then raises; `kept` says
      whether its caller commits all the same. */
  datatype Op =
    | Enqueue(job: Id, definition: Id, availableAt: int, deadline: int)
    | Claim(worker: string)
    | Heartbeat(job: Id, worker: string, kept: bool)
    | Succeed(job: Id, worker: string)
    | Fail(job: Id, worker: string, category: Category)
    | Cancel(job: Id)
    | Control(halted: bool, haltedDefinitions: set<Id>)

  // ----- Retry -----

  datatype Decision = Retry(at: int) | GiveUp | TooLate

  /** What the constructors of definition and retry policy check. */
  predicate Sane(d: Definition) {
    && 1 <= d.concurrency <= 20 && 1 <= d.rate <= 120 && 1 <= d.maxAttempts <= 5
    && |d.delays| >= d.maxAttempts - 1 && forall i :: 0 <= i < |d.delays| ==> 0 < d.delays[i] <= 120
  }

  function Decide(d: Definition, category: Category, attempt: nat, now: int, deadline: int): Decision {
    if !(category.Transient? || category.RateLimit? || category.Quota?) || attempt >= d.maxAttempts then GiveUp
    else
      var at := now + (if 1 <= attempt <= |d.delays| then d.delays[attempt - 1] else 0) * SECOND;
      if at >= deadline then TooLate else Retry(at)
  }

  /** How an attempt that ended without success leaves its job. */
  function Ended(d: Definition, j: Job, category: Category, now: int): Job {
    match Decide(d, category, j.attempts, now, j.deadline)
    case Retry(at) => j.(status := RetryWait, availableAt := at)
    case GiveUp => j.(status := DeadLettered)
    case TooLate => j.(status := Expired)
  }

  // ----- Counting -----

  function RunningJobs(s: State): set<Id> {
    set j | j in s.jobs && s.jobs[j].status.Running?
  }

  function RunningOf(s: State, definition: Id): set<Id> {
    set j | j in s.jobs && s.jobs[j].status.Running? && s.jobs[j].definition == definition
  }

  predicate AttemptOf(jobs: map<Id, Job>, a: Attempt, definition: Id) {
    a.job in jobs && jobs[a.job].definition == definition
  }

  /** Attempts of the definition that started after `from` and not after `to`. */
  function Started(jobs: map<Id, Job>, attempts: seq<Attempt>, definition: Id, from: int, to: int): nat {
    if attempts == [] then 0 else
      var last := attempts[|attempts| - 1];
      Started(jobs, attempts[..|attempts| - 1], definition, from, to)
      + if AttemptOf(jobs, last, definition) && from < last.startedAt <= to then 1 else 0
  }

  /** Attempts of the definition that started after `from`. */
  function Recent(jobs: map<Id, Job>, attempts: seq<Attempt>, definition: Id, from: int): nat {
    if attempts == [] then 0 else
      var last := attempts[|attempts| - 1];
      Recent(jobs, attempts[..|attempts| - 1], definition, from)
      + if AttemptOf(jobs, last, definition) && last.startedAt > from then 1 else 0
  }

  // ----- Claiming -----

  /** The rows the claim query selects from. */
  function Eligible(s: State, now: int): set<Id> {
    set j | j in s.jobs && (s.jobs[j].status.Queued? || s.jobs[j].status.RetryWait?)
            && s.jobs[j].availableAt <= now && s.jobs[j].deadline > now
            && s.jobs[j].definition in s.definitions && s.definitions[s.jobs[j].definition].status.Live?
            && s.jobs[j].definition !in s.haltedDefinitions
  }

  /** The order of the claim query: availability, creation, identity. */
  predicate Before(s: State, j: Id, k: Id)
    requires j in s.jobs && k in s.jobs
  {
    var a, b := s.jobs[j], s.jobs[k];
    a.availableAt < b.availableAt
    || (a.availableAt == b.availableAt && (a.createdAt < b.createdAt || (a.createdAt == b.createdAt && j <= k)))
  }

  ghost predicate IsFirst(s: State, rows: set<Id>, j: Id)
    requires rows <= s.jobs.Keys
  {
    j in rows && forall k :: k in rows ==> Before(s, j, k)
  }

  lemma {:induction false} FirstExists(s: State, rows: set<Id>)
    requires rows <= s.jobs.Keys && rows != {}
    ensures exists j :: IsFirst(s, rows, j)
    decreases |rows|
  {
    var k :| k in rows;
    var rest := rows - {k};
    assert rows == rest + {k};
    if rest == {} {
      assert IsFirst(s, rows, k);
    } else {
      FirstExists(s, rest);
      var j :| IsFirst(s, rest, j);
      var first := if Before(s, j, k) then j else k;
      assert forall i :: i in rest ==> Before(s, j, i);
      assert IsFirst(s, rows, first);
    }
  }

  ghost function First(s: State, rows: set<Id>): (j: Id)
    requires rows <= s.jobs.Keys && rows != {}
    ensures IsFirst(s, rows, j)
  {
    FirstExists(s, rows);
    var j :| IsFirst(s, rows, j);
    j
  }

  ghost function ClaimCandidate(s: State, now: int): Option<Id> {
    if s.halted || |RunningJobs(s)| >= WORKSPACE_CEILING || Eligible(s, now) == {} then None
    else
      var j := First(s, Eligible(s, now));
      var d := s.definitions[s.jobs[j].definition];
      if |RunningOf(s, s.jobs[j].definition)| >= d.concurrency then None
      else if Recent(s.jobs, s.attempts, s.jobs[j].definition, now - MINUTE) >= d.rate then None
      else Some(j)
  }

  /** Jobs whose lease ran out are retried or ended; waiting jobs past their deadline expire. */
  function Swept(s: State, now: int): State {
    s.(jobs := map j | j in s.jobs :: SweptJob(s.definitions, s.jobs[j], now))
  }

  function SweptJob(definitions: map<Id, Definition>, j: Job, now: int): Job {
    ExpireWaiting(RecoverExpired(definitions, j, now), now)
  }

  function RecoverExpired(definitions: map<Id, Definition>, j: Job, now: int): Job {
    if j.status.Running? && j.leaseEnds <= now && j.definition in definitions
    then Ended(definitions[j.definition], j, Transient, now) else j
  }

  function ExpireWaiting(j: Job, now: int): Job {
    if (j.status.Queued? || j.status.RetryWait?) && j.deadline <= now then j.(status := Expired) else j
  }

  function StartAttempt(s: State, j: Id, worker: string, now: int): State
    requires j in s.jobs
  {
    var n := s.jobs[j].attempts + 1;
    s.(jobs := s.jobs[j := s.jobs[j].(attempts := n, status := Running, owner := worker, leaseEnds := now + LEASE)],
       attempts := s.attempts + [Attempt(j, n, now)])
  }

  ghost function DoClaim(s: State, worker: string, now: int): State {
    var t := Swept(s, now);
    match ClaimCandidate(t, now)
    case None => t
    case Some(j) => StartAttempt(t, j, worker, now)
  }

  // ----- The other calls -----

  predicate Leased(s: State, j: Id, worker: string, now: int) {
    j in s.jobs && s.jobs[j].status.Running? && s.jobs[j].owner == worker && s.jobs[j].leaseEnds > now
  }

  function WithJob(s: State, j: Id, job: Job): State { s.(jobs := s.jobs[j := job]) }

  ghost function Apply(s: State, op: Op, now: int): State {
    Act(s.(clock := now), op, now)
  }

  ghost function Act(s: State, op: Op, now: int): State {
    match op
    case Enqueue(j, d, availableAt, deadline) =>
      if j in s.jobs || d !in s.definitions || s.definitions[d].status.Retired? || deadline <= availableAt then s
      else WithJob(s, j, Job(d, Queued, availableAt, now, deadline, 0, "", 0, false))
    case Claim(worker) => DoClaim(s, worker, now)
    case Heartbeat(j, worker, kept) =>
      if !Leased(s, j, worker, now) || (s.jobs[j].cancelRequested && !kept) then s
      else if s.jobs[j].cancelRequested then WithJob(s, j, s.jobs[j].(status := Cancelled))
      else WithJob(s, j, s.jobs[j].(leaseEnds := now + LEASE))
    case Succeed(j, worker) =>
      if !Leased(s, j, worker, now) || s.jobs[j].cancelRequested then s
      else WithJob(s, j, s.jobs[j].(status := Succeeded))
    case Fail(j, worker, category) =>
      if !Leased(s, j, worker, now) || s.jobs[j].definition !in s.definitions then s
      else WithJob(s, j, Ended(s.definitions[s.jobs[j].definition], s.jobs[j], category, now))
    case Cancel(j) =>
      if j !in s.jobs || !(s.jobs[j].status.Queued? || s.jobs[j].status.RetryWait? || s.jobs[j].status.Running?) then s
      else
        var status := if s.jobs[j].status.Running? then Running else Cancelled;
        WithJob(s, j, s.jobs[j].(cancelRequested := true, status := status))
    case Control(halted, definitions) => s.(halted := halted, haltedDefinitions := definitions)
  }

  /** Calls with the instants at which they are made. */
  ghost function Run(s: State, calls: seq<(Op, int)>): State
    decreases |calls|
  {
    if calls == [] then s else Run(Apply(s, calls[0].0, calls[0].1), calls[1..])
  }

  predicate ClockRuns(clock: int, calls: seq<(Op, int)>)
    decreases |calls|
  {
    calls != [] ==> clock <= calls[0].1 && ClockRuns(calls[0].1, calls[1..])
  }

  // ----- What every run keeps -----

  /** Attempts are recorded in the order they started, none after the clock. */
  ghost predicate Ordered(s: State) {
    && (forall i, j :: 0 <= i < j < |s.attempts| ==> s.attempts[i].startedAt <= s.attempts[j].startedAt)
    && (forall i :: 0 <= i < |s.attempts| ==> s.attempts[i].startedAt <= s.clock && s.attempts[i].job in s.jobs)
  }

  /** Every minute, wherever it begins, holds at most the definition's rate of attempts. */
  ghost predicate RateKept(s: State, d: Id) {
    d in s.definitions ==> forall t :: InMinute(s, d, t) <= s.definitions[d].rate
  }

  /** Attempts of the definition in the minute that ends at `t`. */
  function InMinute(s: State, d: Id, t: int): nat {
    Started(s.jobs, s.attempts, d, t - MINUTE, t)
  }

  ghost predicate ConcurrencyKept(s: State, d: Id) {
    d in s.definitions ==> |RunningOf(s, d)| <= s.definitions[d].concurrency
  }

  /** How many attempts a job has had. */
  function Tries(attempts: seq<Attempt>, j: Id): nat {
    if attempts == [] then 0
    else Tries(attempts[..|attempts| - 1], j) + if attempts[|attempts| - 1].job == j then 1 else 0
  }

  /** A job counts its attempts, has at most its definition's maximum of them, and waits
      for another only below it. */
  ghost predicate TriesBounded(s: State, j: Id) {
    j in s.jobs ==>
      && s.jobs[j].definition in s.definitions
      && s.jobs[j].attempts == Tries(s.attempts, j) <= s.definitions[s.jobs[j].definition].maxAttempts
      && (s.jobs[j].status.Queued? || s.jobs[j].status.RetryWait? ==>
          s.jobs[j].attempts < s.definitions[s.jobs[j].definition].maxAttempts)
      && (s.jobs[j].status.Running? ==> s.jobs[j].attempts > 0)
  }

  ghost predicate Inv(s: State) {
    && (forall d :: d in s.definitions ==> Sane(s.definitions[d]))
    && Ordered(s)
    && |RunningJobs(s)| <= WORKSPACE_CEILING
    && (forall d :: ConcurrencyKept(s, d))
    && (forall d :: RateKept(s, d))
    && (forall j :: TriesBounded(s, j))
  }

  /** What a call other than a claim may do to the jobs: none starts running, none changes
      its definition or its attempt count, and only new ones are added. */
  ghost predicate NoneStarts(s: State, t: State) {
    && t.definitions == s.definitions && t.attempts == s.attempts
    && (forall j :: j in s.jobs ==>
        j in t.jobs && t.jobs[j].definition == s.jobs[j].definition && t.jobs[j].attempts == s.jobs[j].attempts)
    && (forall j :: j in t.jobs && t.jobs[j].status.Running? ==> j in s.jobs && s.jobs[j].status.Running?)
    && (forall j :: j in t.jobs && j !in s.jobs ==> t.jobs[j].attempts == 0 && t.jobs[j].definition in t.definitions)
    && (forall j :: j in s.jobs && (t.jobs[j].status.Queued? || t.jobs[j].status.RetryWait?) ==>
          || s.jobs[j].status == t.jobs[j].status
          || (s.jobs[j].definition in s.definitions
              && s.jobs[j].attempts < s.definitions[s.jobs[j].definition].maxAttempts))
  }

  lemma SubsetCount<T>(a: set<T>, b: set<T>)
    requires a <= b
    ensures |a| <= |b|
  {
    assert b == a + (b - a);
  }

  lemma NoneStartsKeepsRates(s: State, t: State)
    requires Inv(s) && NoneStarts(s, t)
    ensures forall d :: RateKept(t, d)
  {
    forall d ensures RateKept(t, d) {
      assert RateKept(s, d);
      forall u ensures InMinute(t, d, u) == InMinute(s, d, u) {
        SameCount(s, t, |s.attempts|, d, u - MINUTE, u);
      }
    }
  }

  lemma NoneStartsKeepsTries(s: State, t: State)
    requires Inv(s) && NoneStarts(s, t)
    ensures forall j :: TriesBounded(t, j)
  {
    forall j ensures TriesBounded(t, j) {
      assert TriesBounded(s, j);
      if j !in s.jobs {
        NoTries(s, j, |s.attempts|);
        if j in t.jobs {
          assert Sane(s.definitions[t.jobs[j].definition]);
        }
      }
    }
  }

  lemma NoneStartsKeeps(s: State, t: State)
    requires Inv(s) && NoneStarts(s, t) && t.clock >= s.clock
    ensures Inv(t)
  {
    SubsetCount(RunningJobs(t), RunningJobs(s));
    forall d ensures ConcurrencyKept(t, d) {
      assert ConcurrencyKept(s, d);
      SubsetCount(RunningOf(t, d), RunningOf(s, d));
    }
    NoneStartsKeepsRates(s, t);
    NoneStartsKeepsTries(s, t);
  }

  lemma {:induction false} SameCount(s: State, t: State, n: nat, d: Id, from: int, to: int)
    requires n <= |s.attempts| && t.attempts == s.attempts && Ordered(s)
    requires forall j :: j in s.jobs ==> j in t.jobs && t.jobs[j].definition == s.jobs[j].definition
    ensures Started(t.jobs, t.attempts[..n], d, from, to) == Started(s.jobs, s.attempts[..n], d, from, to)
    ensures n == |s.attempts| ==> Started(t.jobs, t.attempts, d, from, to) == Started(s.jobs, s.attempts, d, from, to)
  {
    if n > 0 {
      SameCount(s, t, n - 1, d, from, to);
      assert s.attempts[..n][..n - 1] == s.attempts[..n - 1];
    }
    assert s.attempts[..|s.attempts|] == s.attempts;
  }

  lemma {:induction false} NoTries(s: State, j: Id, n: nat)
    requires n <= |s.attempts| && Ordered(s) && j !in s.jobs
    ensures Tries(s.attempts[..n], j) == 0
    ensures n == |s.attempts| ==> Tries(s.attempts, j) == 0
  {
    if n > 0 {
      NoTries(s, j, n - 1);
      assert s.attempts[..n][..n - 1] == s.attempts[..n - 1];
    }
    assert s.attempts[..|s.attempts|] == s.attempts;
  }

  lemma SweptStartsNone(s: State, now: int)
    requires Inv(s)
    ensures NoneStarts(s, Swept(s, now))
  {
    forall j | j in s.jobs ensures SweptFine(s, j, now) {
      assert TriesBounded(s, j);
    }
  }

  ghost predicate SweptFine(s: State, j: Id, now: int)
    requires j in s.jobs
  {
    var before, after := s.jobs[j], SweptJob(s.definitions, s.jobs[j], now);
    && after.definition == before.definition && after.attempts == before.attempts
    && (after.status.Running? ==> before.status.Running?)
    && (after.status.Queued? || after.status.RetryWait? ==>
          after.status == before.status
          || (before.definition in s.definitions && before.attempts < s.definitions[before.definition].maxAttempts))
  }

  lemma OneJobStartsNone(s: State, j: Id, after: Job)
    requires Inv(s) && j in s.jobs && after.definition == s.jobs[j].definition && after.attempts == s.jobs[j].attempts
    requires after.status.Running? ==> s.jobs[j].status.Running?
    requires after.status.Queued? || after.status.RetryWait? ==>
               after.definition in s.definitions && after.attempts < s.definitions[after.definition].maxAttempts
    ensures NoneStarts(s, WithJob(s, j, after))
  {
  }

  lemma WorkerCallsStartNone(s: State, op: Op, now: int)
    requires Inv(s) && (op.Heartbeat? || op.Succeed? || op.Fail?)
    ensures NoneStarts(s, Act(s, op, now))
  {
    if Leased(s, op.job, op.worker, now) && Act(s, op, now) != s {
      assert Act(s, op, now) == WithJob(s, op.job, Act(s, op, now).jobs[op.job]);
      OneJobStartsNone(s, op.job, Act(s, op, now).jobs[op.job]);
    }
  }

  lemma ClientCallsStartNone(s: State, op: Op, now: int)
    requires Inv(s) && (op.Enqueue? || op.Cancel? || op.Control?)
    ensures NoneStarts(s, Act(s, op, now))
  {
  }

  lemma OtherCallsStartNone(s: State, op: Op, now: int)
    requires Inv(s) && !op.Claim?
    ensures NoneStarts(s, Act(s, op, now)) && Act(s, op, now).clock == s.clock
  {
    if op.Heartbeat? || op.Succeed? || op.Fail? {
      WorkerCallsStartNone(s, op, now);
    } else {
      ClientCallsStartNone(s, op, now);
    }
  }

  // ----- A claim keeps the gates -----

  /** With the clock at `now`, a minute that ends later holds no more than what the rate
      gate counts, and the new attempt. */
  lemma {:induction false} MinuteWithinGate(s: State, n: nat, d: Id, now: int, t: int)
    requires n <= |s.attempts| && now <= t
    ensures Started(s.jobs, s.attempts[..n], d, t - MINUTE, t) <= Recent(s.jobs, s.attempts[..n], d, now - MINUTE)
    ensures n == |s.attempts| ==> InMinute(s, d, t) <= Recent(s.jobs, s.attempts, d, now - MINUTE)
  {
    if n > 0 {
      MinuteWithinGate(s, n - 1, d, now, t);
      assert s.attempts[..n][..n - 1] == s.attempts[..n - 1];
    }
    assert s.attempts[..|s.attempts|] == s.attempts;
  }

  lemma StartKeepsRate(s: State, j: Id, worker: string, now: int, d: Id)
    requires Inv(s) && s.clock <= now && j in s.jobs && d in s.definitions
    requires s.jobs[j].definition == d ==> Recent(s.jobs, s.attempts, d, now - MINUTE) < s.definitions[d].rate
    ensures RateKept(StartAttempt(s, j, worker, now), d)
  {
    var t := StartAttempt(s, j, worker, now);
    assert RateKept(s, d);
    forall u ensures InMinute(t, d, u) <= t.definitions[d].rate {
      var same := t.(attempts := s.attempts);
      SameCount(s, same, |s.attempts|, d, u - MINUTE, u);
      assert t.attempts[..|t.attempts| - 1] == s.attempts;
      if now <= u {
        MinuteWithinGate(s, |s.attempts|, d, now, u);
      }
      assert InMinute(same, d, u) == InMinute(s, d, u) <= s.definitions[d].rate;
      assert InMinute(t, d, u)
             == InMinute(same, d, u) + if s.jobs[j].definition == d && u - MINUTE < now <= u then 1 else 0;
    }
  }

  lemma {:induction false} TriesExtend(attempts: seq<Attempt>, a: Attempt, j: Id)
    ensures Tries(attempts + [a], j) == Tries(attempts, j) + if a.job == j then 1 else 0
  {
    assert (attempts + [a])[..|attempts|] == attempts;
  }

  lemma StartKeepsTries(s: State, j: Id, worker: string, now: int)
    requires Inv(s) && j in s.jobs && (s.jobs[j].status.Queued? || s.jobs[j].status.RetryWait?)
    ensures forall k :: TriesBounded(StartAttempt(s, j, worker, now), k)
  {
    var t := StartAttempt(s, j, worker, now);
    forall k ensures TriesBounded(t, k) {
      assert TriesBounded(s, k);
      TriesExtend(s.attempts, Attempt(j, s.jobs[j].attempts + 1, now), k);
    }
  }

  lemma StartKeepsConcurrency(s: State, j: Id, worker: string, now: int)
    requires Inv(s) && j in s.jobs && !s.jobs[j].status.Running?
    requires |RunningJobs(s)| < WORKSPACE_CEILING
    requires var d := s.jobs[j].definition; d in s.definitions && |RunningOf(s, d)| < s.definitions[d].concurrency
    ensures var t := StartAttempt(s, j, worker, now);
            |RunningJobs(t)| <= WORKSPACE_CEILING && forall d :: ConcurrencyKept(t, d)
  {
    var t := StartAttempt(s, j, worker, now);
    assert RunningJobs(t) == RunningJobs(s) + {j};
    forall d ensures ConcurrencyKept(t, d) {
      assert ConcurrencyKept(s, d);
      if d == s.jobs[j].definition {
        assert RunningOf(t, d) == RunningOf(s, d) + {j};
      } else {
        assert RunningOf(t, d) == RunningOf(s, d);
      }
    }
  }

  lemma StartKeepsOrder(s: State, j: Id, worker: string)
    requires Inv(s) && j in s.jobs
    ensures Ordered(StartAttempt(s, j, worker, s.clock))
  {
  }

  lemma StartKeeps(s: State, j: Id, worker: string)
    requires Inv(s) && ClaimCandidate(s, s.clock) == Some(j)
    ensures j in s.jobs && Inv(StartAttempt(s, j, worker, s.clock))
  {
    var d := s.jobs[j].definition;
    StartKeepsOrder(s, j, worker);
    StartKeepsConcurrency(s, j, worker, s.clock);
    StartKeepsTries(s, j, worker, s.clock);
    var t := StartAttempt(s, j, worker, s.clock);
    forall e ensures RateKept(t, e) {
      if e in s.definitions {
        StartKeepsRate(s, j, worker, s.clock, e);
      }
    }
  }

  lemma ClaimKeeps(s: State, worker: string)
    requires Inv(s)
    ensures Inv(DoClaim(s, worker, s.clock))
  {
    SweptStartsNone(s, s.clock);
    var t := Swept(s, s.clock);
    NoneStartsKeeps(s, t);
    if ClaimCandidate(t, t.clock).Some? {
      StartKeeps(t, ClaimCandidate(t, t.clock).value, worker);
    }
  }

  lemma TickKeeps(s: State, now: int)
    requires Inv(s) && s.clock <= now
    ensures Inv(s.(clock := now))
  {
    NoneStartsKeeps(s, s.(clock := now));
  }

  lemma ApplyKeeps(s: State, op: Op, now: int)
    requires Inv(s) && s.clock <= now
    ensures Inv(Apply(s, op, now)) && Apply(s, op, now).clock == now
  {
    var t := s.(clock := now);
    TickKeeps(s, now);
    if op.Claim? {
      ClaimKeeps(t, op.worker);
    } else {
      OtherCallsStartNone(t, op, now);
      NoneStartsKeeps(t, Act(t, op, now));
    }
  }

  /** Over any serial run with a clock that does not go back: every minute, wherever it
      lies, holds at most the definition's rate of attempts; at most its concurrency and
      at most twenty jobs of the workspace run; and no job has more than its attempts. */
  lemma {:induction false} EveryRunKeepsTheGates(s: State, calls: seq<(Op, int)>)
    requires Inv(s) && ClockRuns(s.clock, calls)
    ensures Inv(Run(s, calls))
    decreases |calls|
  {
    if calls != [] {
      ApplyKeeps(s, calls[0].0, calls[0].1);
      EveryRunKeepsTheGates(Apply(s, calls[0].0, calls[0].1), calls[1..]);
    }
  }

  lemma {:induction false} InstantsAscend(clock: int, calls: seq<(Op, int)>)
    requires calls != [] ==> clock <= calls[0].1
    requires forall i, j :: 0 <= i < j < |calls| ==> calls[i].1 <= calls[j].1
    ensures ClockRuns(clock, calls)
    decreases |calls|
  {
    if calls != [] {
      InstantsAscend(calls[0].1, calls[1..]);
    }
  }

  /** The bounds a definition is approved within. */
  predicate Approved(d: Definition) {
    && 1 <= d.concurrency <= 20 && 1 <= d.rate <= 120 && 1 <= d.maxAttempts <= 5 && d.maxAttempts <= |d.delays| + 1
    && forall i :: 0 <= i < |d.delays| ==> 1 <= d.delays[i] <= 120
  }

  /** From an empty workspace, with definitions as their constructors let them through and
      calls at instants that do not go back. */
  lemma GatesFromTheStart(definitions: map<Id, Definition>, now: int, calls: seq<(Op, int)>)
    requires forall d :: d in definitions ==> Approved(definitions[d])
    requires calls != [] ==> now <= calls[0].1
    requires forall i, j :: 0 <= i < j < |calls| ==> calls[i].1 <= calls[j].1
    ensures var s := Run(State(definitions, map[], [], false, {}, now), calls);
            && |RunningJobs(s)| <= 20
            && (forall d :: d in s.definitions ==> |RunningOf(s, d)| <= s.definitions[d].concurrency)
            && (forall d, t :: d in s.definitions ==> InMinute(s, d, t) <= s.definitions[d].rate)
            && (forall j :: j in s.jobs ==> Tries(s.attempts, j) == s.jobs[j].attempts <= 5)
  {
    var start := State(definitions, map[], [], false, {}, now);
    InstantsAscend(now, calls);
    assert RunningJobs(start) == {};
    forall d ensures ConcurrencyKept(start, d) && RateKept(start, d) {
      assert RunningOf(start, d) == {};
    }
    EveryRunKeepsTheGates(start, calls);
    var s := Run(start, calls);
    forall d | d in s.definitions
      ensures |RunningOf(s, d)| <= s.definitions[d].concurrency
              && forall t :: InMinute(s, d, t) <= s.definitions[d].rate
    {
      assert ConcurrencyKept(s, d) && RateKept(s, d);
    }
    forall j | j in s.jobs ensures Tries(s.attempts, j) == s.jobs[j].attempts <= 5 {
      assert TriesBounded(s, j) && Sane(s.definitions[s.jobs[j].definition]);
    }
  }

  // ----- Retries wait out their delay -----

  /** When the job's latest attempt started. */
  function LastStart(attempts: seq<Attempt>, j: Id): int {
    if attempts == [] then 0
    else if attempts[|attempts| - 1].job == j then attempts[|attempts| - 1].startedAt
    else LastStart(attempts[..|attempts| - 1], j)
  }

  /** The delay, in microseconds, before the attempt after the `n`th. */
  function DelayAfter(s: State, j: Id, n: int): int {
    if j in s.jobs && s.jobs[j].definition in s.definitions && 1 <= n <= |s.definitions[s.jobs[j].definition].delays|
    then s.definitions[s.jobs[j].definition].delays[n - 1] * SECOND else 0
  }

  /** Every attempt is numbered in turn and started at least its delay after the one before. */
  predicate Spaced(s: State, n: nat)
    requires n <= |s.attempts|
  {
    n > 0 ==>
      var a, before := s.attempts[n - 1], s.attempts[..n - 1];
      && a.number == Tries(before, a.job) + 1
      && (Tries(before, a.job) > 0 ==>
          LastStart(before, a.job) + DelayAfter(s, a.job, Tries(before, a.job)) <= a.startedAt)
      && Spaced(s, n - 1)
  }

  /** A waiting job has not been tried, or is not available before its delay is over. */
  ghost predicate WaitsOut(s: State, j: Id) {
    j in s.jobs ==>
      && (s.jobs[j].status.Queued? ==> s.jobs[j].attempts == 0)
      && (s.jobs[j].status.RetryWait? ==>
            && s.jobs[j].attempts > 0
            && LastStart(s.attempts, j) + DelayAfter(s, j, s.jobs[j].attempts) <= s.jobs[j].availableAt)
  }

  ghost predicate Backoff(s: State) {
    Spaced(s, |s.attempts|) && forall j :: WaitsOut(s, j)
  }

  lemma {:induction false} LastStartBounded(s: State, n: nat, j: Id)
    requires Ordered(s) && n <= |s.attempts| && Tries(s.attempts[..n], j) > 0
    ensures LastStart(s.attempts[..n], j) <= s.clock
  {
    assert s.attempts[..n][..n - 1] == s.attempts[..n - 1];
    if s.attempts[n - 1].job != j {
      LastStartBounded(s, n - 1, j);
    }
  }

  /** An attempt that ends puts the job's next one at least the delay after now. */
  lemma EndedWaitsOut(s: State, j: Id, category: Category, now: int)
    requires Inv(s) && s.clock <= now && j in s.jobs && s.jobs[j].status.Running?
    ensures s.jobs[j].definition in s.definitions
    ensures var after := Ended(s.definitions[s.jobs[j].definition], s.jobs[j], category, now);
            && !after.status.Queued?
            && (after.status.RetryWait? ==>
                after.attempts > 0 && LastStart(s.attempts, j) + DelayAfter(s, j, after.attempts) <= after.availableAt)
  {
    assert TriesBounded(s, j);
    assert s.attempts[..|s.attempts|] == s.attempts;
    LastStartBounded(s, |s.attempts|, j);
    assert Sane(s.definitions[s.jobs[j].definition]);
  }

  lemma {:induction false} SpacedFrame(s: State, t: State, n: nat)
    requires n <= |s.attempts| && n <= |t.attempts| && s.attempts[..n] == t.attempts[..n] && Spaced(s, n) && Ordered(s)
    requires t.definitions == s.definitions
    requires forall j :: j in s.jobs ==> j in t.jobs && t.jobs[j].definition == s.jobs[j].definition
    ensures Spaced(t, n)
  {
    if n > 0 {
      assert s.attempts[..n][..n - 1] == s.attempts[..n - 1] && t.attempts[..n][..n - 1] == t.attempts[..n - 1];
      assert s.attempts[..n][n - 1] == t.attempts[..n][n - 1];
      SpacedFrame(s, t, n - 1);
    }
  }

  lemma SweptWaits(s: State)
    requires Inv(s) && Backoff(s)
    ensures forall j :: WaitsOut(Swept(s, s.clock), j)
  {
    var t := Swept(s, s.clock);
    forall j ensures WaitsOut(t, j) {
      assert WaitsOut(s, j);
      if j in s.jobs && s.jobs[j].status.Running? {
        EndedWaitsOut(s, j, Transient, s.clock);
      }
    }
  }

  lemma OtherCallsWait(s: State, op: Op)
    requires Inv(s) && Backoff(s) && !op.Claim?
    ensures forall j :: WaitsOut(Act(s, op, s.clock), j)
  {
    var t := Act(s, op, s.clock);
    if op.Fail? && Leased(s, op.job, op.worker, s.clock) {
      EndedWaitsOut(s, op.job, op.category, s.clock);
    }
    forall j ensures WaitsOut(t, j) {
      assert WaitsOut(s, j);
      CallWaits(s, op, j);
    }
  }

  lemma CallWaits(s: State, op: Op, j: Id)
    requires !op.Claim? && WaitsOut(s, j)
    requires op.Fail? && op.job == j && Leased(s, j, op.worker, s.clock) && s.jobs[j].definition in s.definitions ==>
               var after := Ended(s.definitions[s.jobs[j].definition], s.jobs[j], op.category, s.clock);
               && !after.status.Queued?
               && (after.status.RetryWait? ==>
                     && after.attempts > 0
                     && LastStart(s.attempts, j) + DelayAfter(s, j, after.attempts) <= after.availableAt)
    ensures WaitsOut(Act(s, op, s.clock), j)
  {
  }

  lemma StartWaits(s: State, j: Id, worker: string)
    requires Inv(s) && Backoff(s) && ClaimCandidate(s, s.clock) == Some(j)
    ensures j in s.jobs && Backoff(StartAttempt(s, j, worker, s.clock))
  {
    StartSpaced(s, j, worker, s.clock);
    StartLeavesOthersWaiting(s, j, worker, s.clock);
  }

  lemma StartSpaced(s: State, j: Id, worker: string, now: int)
    requires Inv(s) && Backoff(s) && j in Eligible(s, now)
    ensures Spaced(StartAttempt(s, j, worker, now), |s.attempts| + 1)
  {
    var t := StartAttempt(s, j, worker, now);
    assert TriesBounded(s, j) && WaitsOut(s, j);
    assert t.attempts[..|s.attempts|] == s.attempts == s.attempts[..|s.attempts|];
    SpacedFrame(s, t, |s.attempts|);
  }

  lemma StartLeavesOthersWaiting(s: State, j: Id, worker: string, now: int)
    requires Backoff(s) && j in s.jobs
    ensures forall k :: WaitsOut(StartAttempt(s, j, worker, now), k)
  {
    var t := StartAttempt(s, j, worker, now);
    assert t.attempts[..|s.attempts|] == s.attempts;
    forall k ensures WaitsOut(t, k) {
      assert WaitsOut(s, k);
    }
  }

  lemma NoneStartsBackoff(s: State, t: State)
    requires Inv(s) && Spaced(s, |s.attempts|) && NoneStarts(s, t) && forall j :: WaitsOut(t, j)
    ensures Backoff(t)
  {
    SpacedFrame(s, t, |s.attempts|);
  }

  lemma TickBackoff(s: State, now: int)
    requires Inv(s) && Backoff(s)
    ensures Backoff(s.(clock := now))
  {
    var t := s.(clock := now);
    forall j ensures WaitsOut(t, j) { assert WaitsOut(s, j); }
    NoneStartsBackoff(s, t);
  }

  lemma ClaimBackoff(s: State, worker: string)
    requires Inv(s) && Backoff(s)
    ensures Backoff(DoClaim(s, worker, s.clock))
  {
    var swept := Swept(s, s.clock);
    SweptStartsNone(s, s.clock);
    SweptWaits(s);
    NoneStartsBackoff(s, swept);
    NoneStartsKeeps(s, swept);
    if ClaimCandidate(swept, swept.clock).Some? {
      StartWaits(swept, ClaimCandidate(swept, swept.clock).value, worker);
    }
  }

  lemma ApplyBackoff(s: State, op: Op, now: int)
    requires Inv(s) && Backoff(s) && s.clock <= now
    ensures Backoff(Apply(s, op, now))
  {
    var t := s.(clock := now);
    TickKeeps(s, now);
    TickBackoff(s, now);
    if op.Claim? {
      ClaimBackoff(t, op.worker);
    } else {
      OtherCallsStartNone(t, op, now);
      OtherCallsWait(t, op);
      NoneStartsBackoff(t, Act(t, op, now));
    }
  }

  /** Over any such run, every attempt of a job after its first starts at least the retry
      delay of its number after the attempt before. */
  lemma {:induction false} RetriesWaitOutTheirDelay(s: State, calls: seq<(Op, int)>)
    requires Inv(s) && Backoff(s) && ClockRuns(s.clock, calls)
    ensures Backoff(Run(s, calls))
    decreases |calls|
  {
    if calls != [] {
      ApplyKeeps(s, calls[0].0, calls[0].1);
      ApplyBackoff(s, calls[0].0, calls[0].1);
      RetriesWaitOutTheirDelay(Apply(s, calls[0].0, calls[0].1), calls[1..]);
    }
  }

  // ----- What a cancellation stops -----

  predicate Waiting(s: State, j: Id) {
    j in s.jobs && (s.jobs[j].status.Queued? || s.jobs[j].status.RetryWait?)
  }

  /** A cancellation of the job went through, and the job is not up for a claim. */
  predicate CancelTook(s: State, j: Id) {
    j in s.jobs && s.jobs[j].cancelRequested && !Waiting(s, j)
  }

  /** A cancellation that is not refused takes; a job that was not running is over. */
  lemma CancelTakes(s: State, j: Id, now: int)
    ensures var t := Apply(s, Cancel(j), now);
            Waiting(s, j) || (j in s.jobs && s.jobs[j].status.Running?) ==>
              CancelTook(t, j) && (t.jobs[j].status.Running? <==> s.jobs[j].status.Running?)
  {
  }

  predicate Retries(s: State, j: Id, category: Category, now: int)
    requires j in s.jobs
  {
    var job := s.jobs[j];
    job.definition in s.definitions
    && Decide(s.definitions[job.definition], category, job.attempts, now, job.deadline).Retry?
  }

  /** The two calls that put a running job up for another attempt: its worker reports a
      failure that may be retried, or its lease has run out when somebody claims. Neither
      looks at the cancellation. */
  predicate ComesBack(s: State, op: Op, j: Id, now: int) {
    || (op.Fail? && op.job == j && Leased(s, j, op.worker, now) && Retries(s, j, op.category, now))
    || (op.Claim? && j in s.jobs && s.jobs[j].status.Running? && s.jobs[j].leaseEnds <= now
        && Retries(s, j, Transient, now))
  }

  lemma SweptComesBack(s: State, j: Id, now: int)
    requires Inv(s) && CancelTook(s, j)
    ensures var after := SweptJob(s.definitions, s.jobs[j], now);
            && after.cancelRequested
            && (after.status.Running? ==> s.jobs[j].status.Running?)
            && (after.status.Queued? || after.status.RetryWait? <==> ComesBack(s, Claim(""), j, now))
            && (after.status.Queued? || after.status.RetryWait? ==> after.availableAt > now)
  {
    assert TriesBounded(s, j) && Sane(s.definitions[s.jobs[j].definition]);
  }

  lemma ClaimPassesOver(s: State, j: Id, worker: string)
    requires Inv(s) && CancelTook(s, j)
    ensures var t := DoClaim(s, worker, s.clock);
            && j in t.jobs && t.jobs[j] == SweptJob(s.definitions, s.jobs[j], s.clock)
            && Tries(t.attempts, j) == Tries(s.attempts, j)
  {
    var swept := Swept(s, s.clock);
    SweptComesBack(s, j, s.clock);
    assert j !in Eligible(swept, s.clock);
    if ClaimCandidate(swept, s.clock).Some? {
      var k := ClaimCandidate(swept, s.clock).value;
      assert k in Eligible(swept, s.clock);
      TriesExtend(s.attempts, Attempt(k, swept.jobs[k].attempts + 1, s.clock), j);
    }
  }

  lemma OtherCallComesBack(s: State, op: Op, j: Id, now: int)
    requires CancelTook(s, j) && !op.Claim?
    ensures var t := Act(s, op, now);
            && j in t.jobs && t.jobs[j].cancelRequested && t.attempts == s.attempts
            && (Waiting(t, j) <==> ComesBack(s, op, j, now))
            && (t.jobs[j].status.Running? ==> s.jobs[j].status.Running?)
  {
  }

  /** After a cancellation one call puts the job up for a claim exactly if it is one of those. */
  lemma ComesBackStep(s: State, op: Op, j: Id, now: int)
    requires Inv(s) && s.clock <= now && CancelTook(s, j)
    ensures var t := Apply(s, op, now);
            && j in t.jobs && t.jobs[j].cancelRequested
            && (Waiting(t, j) <==> ComesBack(s, op, j, now))
            && Tries(t.attempts, j) == Tries(s.attempts, j)
            && (t.jobs[j].status.Running? ==> s.jobs[j].status.Running?)
  {
    var ticked := s.(clock := now);
    if op.Claim? {
      TickKeeps(s, now);
      SweptComesBack(ticked, j, now);
      ClaimPassesOver(ticked, j, op.worker);
    } else {
      OtherCallComesBack(ticked, op, j, now);
    }
  }

  /** The job is up for a claim at some point of the run. */
  ghost predicate EverWaits(s: State, calls: seq<(Op, int)>, j: Id)
    decreases |calls|
  {
    Waiting(s, j) || (calls != [] && EverWaits(Apply(s, calls[0].0, calls[0].1), calls[1..], j))
  }

  ghost predicate EverComesBack(s: State, calls: seq<(Op, int)>, j: Id)
    decreases |calls|
  {
    calls != [] &&
    (ComesBack(s, calls[0].0, j, calls[0].1) || EverComesBack(Apply(s, calls[0].0, calls[0].1), calls[1..], j))
  }

  /** After a cancellation a run can bring a new attempt of the job exactly when one of its
      calls ends the attempt under way so that it may be retried; until then none starts,
      and a job that was not running is never tried again. */
  lemma {:induction false} CancelHoldsIff(s: State, calls: seq<(Op, int)>, j: Id)
    requires Inv(s) && ClockRuns(s.clock, calls) && CancelTook(s, j)
    ensures EverWaits(s, calls, j) <==> EverComesBack(s, calls, j)
    ensures !EverComesBack(s, calls, j) ==> Tries(Run(s, calls).attempts, j) == Tries(s.attempts, j)
    ensures !s.jobs[j].status.Running? ==> !EverComesBack(s, calls, j)
    decreases |calls|
  {
    if calls != [] {
      var t := Apply(s, calls[0].0, calls[0].1);
      ComesBackStep(s, calls[0].0, j, calls[0].1);
      ApplyKeeps(s, calls[0].0, calls[0].1);
      if CancelTook(t, j) {
        CancelHoldsIff(t, calls[1..], j);
      }
    }
  }

  /** Once it waits, the claim does not look at the cancellation either. */
  lemma ClaimIgnoresCancellation(s: State, j: Id, flag: bool, now: int)
    requires j in s.jobs
    ensures ClaimCandidate(WithJob(s, j, s.jobs[j].(cancelRequested := flag)), now) == ClaimCandidate(s, now)
  {
    var t := WithJob(s, j, s.jobs[j].(cancelRequested := flag));
    assert Eligible(t, now) == Eligible(s, now) && RunningJobs(t) == RunningJobs(s);
    if Eligible(s, now) != {} {
      var a, b := First(s, Eligible(s, now)), First(t, Eligible(s, now));
      assert Before(s, a, b) && Before(t, b, a);
      var d := s.jobs[a].definition;
      assert RunningOf(t, d) == RunningOf(s, d);
      SameRecent(s, t, |s.attempts|, d, now - MINUTE);
    }
  }

  lemma {:induction false} SameRecent(s: State, t: State, n: nat, d: Id, from: int)
    requires n <= |s.attempts| && t.attempts == s.attempts && t.jobs.Keys == s.jobs.Keys
    requires forall j :: j in s.jobs ==> t.jobs[j].definition == s.jobs[j].definition
    ensures Recent(t.jobs, s.attempts[..n], d, from) == Recent(s.jobs, s.attempts[..n], d, from)
    ensures n == |s.attempts| ==> Recent(t.jobs, t.attempts, d, from) == Recent(s.jobs, s.attempts, d, from)
  {
    if n > 0 {
      SameRecent(s, t, n - 1, d, from);
      assert s.attempts[..n][..n - 1] == s.attempts[..n - 1];
    }
    assert s.attempts[..|s.attempts|] == s.attempts;
  }

  // ----- A cancelled job that runs again -----

  /** One job of one definition: two attempts, five seconds apart. */
  function Alone(job: Job, attempts: seq<Attempt>, clock: int): State {
    State(map[1 := Definition(Live, 1, 60, 2, [5])], map[1 := job], attempts, false, {}, clock)
  }

  lemma AloneIsClaimed(job: Job, attempts: seq<Attempt>, worker: string, now: int)
    requires job.definition == 1 && (job.status.Queued? || job.status.RetryWait?)
             && job.availableAt <= now < job.deadline
    requires Recent(map[1 := job], attempts, 1, now - MINUTE) < 60
    ensures DoClaim(Alone(job, attempts, now), worker, now) == StartAttempt(Alone(job, attempts, now), 1, worker, now)
  {
    var s := Alone(job, attempts, now);
    assert Swept(s, now) == s;
    assert RunningJobs(s) == {} && RunningOf(s, 1) == {};
    assert 1 in Eligible(s, now);
  }

  lemma AloneIsRecovered(job: Job, attempts: seq<Attempt>, worker: string, now: int)
    requires job.definition == 1 && job.status.Running? && job.leaseEnds <= now && job.attempts == 1
    requires now + 5 * SECOND < job.deadline
    ensures DoClaim(Alone(job, attempts, now), worker, now)
            == Alone(job.(status := RetryWait, availableAt := now + 5 * SECOND), attempts, now)
  {
    var s := Alone(job, attempts, now);
    var t := Alone(job.(status := RetryWait, availableAt := now + 5 * SECOND), attempts, now);
    assert Swept(s, now) == t;
    assert Eligible(t, now) == {};
  }

  const FIRST_ATTEMPT := Attempt(1, 1, 0)
  const NEW_JOB := Job(1, Queued, 0, 0, 100 * SECOND, 0, "", 0, false)
  const RUNNING_JOB := NEW_JOB.(status := Running, attempts := 1, owner := "a", leaseEnds := LEASE)
  const CANCELLED_JOB := RUNNING_JOB.(cancelRequested := true)
  const WAITING_JOB := CANCELLED_JOB.(status := RetryWait, availableAt := 45 * SECOND)
  const SECOND_CLAIM := 50 * SECOND
  const RETRIED_JOB := WAITING_JOB.(status := Running, attempts := 2, owner := "b", leaseEnds := SECOND_CLAIM + LEASE)

  function CancelRun(): seq<(Op, int)> {
    [(Enqueue(1, 1, 0, 100 * SECOND), 0), (Claim("a"), 0), (Cancel(1), SECOND), (Claim("b"), 40 * SECOND),
     (Claim("b"), SECOND_CLAIM)]
  }

  function EmptyQueue(): State { State(Alone(NEW_JOB, [], 0).definitions, map[], [], false, {}, 0) }

  lemma FirstClaim()
    ensures Apply(EmptyQueue(), Enqueue(1, 1, 0, 100 * SECOND), 0) == Alone(NEW_JOB, [], 0)
    ensures Apply(Alone(NEW_JOB, [], 0), Claim("a"), 0) == Alone(RUNNING_JOB, [FIRST_ATTEMPT], 0)
  {
    AloneIsClaimed(NEW_JOB, [], "a", 0);
  }

  lemma LeaseRunsOut()
    ensures Apply(Alone(RUNNING_JOB, [FIRST_ATTEMPT], 0), Cancel(1), SECOND)
            == Alone(CANCELLED_JOB, [FIRST_ATTEMPT], SECOND)
    ensures Apply(Alone(CANCELLED_JOB, [FIRST_ATTEMPT], SECOND), Claim("b"), 40 * SECOND)
            == Alone(WAITING_JOB, [FIRST_ATTEMPT], 40 * SECOND)
  {
    AloneIsRecovered(CANCELLED_JOB, [FIRST_ATTEMPT], "b", 40 * SECOND);
  }

  lemma SecondClaim()
    ensures Apply(Alone(WAITING_JOB, [FIRST_ATTEMPT], 40 * SECOND), Claim("b"), SECOND_CLAIM)
            == Alone(RETRIED_JOB, [FIRST_ATTEMPT, Attempt(1, 2, SECOND_CLAIM)], SECOND_CLAIM)
  {
    assert [FIRST_ATTEMPT][..0] == [];
    AloneIsClaimed(WAITING_JOB, [FIRST_ATTEMPT], "b", SECOND_CLAIM);
  }

  /** A job cancelled while its first attempt runs is tried again: its worker is gone, the
      lease runs out, and the second claim after that starts the next attempt. */
  lemma CancelledJobRunsAgain()
    ensures var s := Run(EmptyQueue(), CancelRun());
            && s.attempts == [FIRST_ATTEMPT, Attempt(1, 2, SECOND_CLAIM)]
            && 1 in s.jobs && s.jobs[1].status.Running? && s.jobs[1].cancelRequested
  {
    var calls := CancelRun();
    FirstClaim();
    LeaseRunsOut();
    SecondClaim();
    assert calls[1..][1..] == calls[2..] && calls[2..][1..] == calls[3..] && calls[3..][1..] == calls[4..];
    assert calls[4..][1..] == [];
    RunCall(EmptyQueue(), calls);
    RunCall(Alone(NEW_JOB, [], 0), calls[1..]);
    RunCall(Alone(RUNNING_JOB, [FIRST_ATTEMPT], 0), calls[2..]);
    RunCall(Alone(CANCELLED_JOB, [FIRST_ATTEMPT], SECOND), calls[3..]);
    RunCall(Alone(WAITING_JOB, [FIRST_ATTEMPT], 40 * SECOND), calls[4..]);
  }

  lemma RunCall(s: State, calls: seq<(Op, int)>)
    requires calls != []
    ensures Run(s, calls) == Run(Apply(s, calls[0].0, calls[0].1), calls[1..])
  {
  }
}
