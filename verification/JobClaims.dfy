/** What claims, leases and outcomes of jobs amount to, said in terms of the rows: which job
    a claim starts, what a pause stops, who may end an attempt, and how. */
module JobClaims {
  import opened Arithmetic
  import opened Wrappers
  import opened JobQueue

  // ----- Counting -----

  /** The indices of the definition's attempts that started in the minute that ends at `t`. */
  function MinuteOf(s: State, n: nat, d: Id, t: int): set<nat>
    requires n <= |s.attempts|
  {
    set i: nat | i < n && StartedIn(s, i, d, t)
  }

  predicate StartedIn(s: State, i: nat, d: Id, t: int)
    requires i < |s.attempts|
  {
    var a := s.attempts[i];
    a.job in s.jobs && s.jobs[a.job].definition == d && t - 60_000_000 < a.startedAt <= t
  }

  /** The rate bounds the number of attempts in a minute, each counted once. */
  lemma {:induction false} MinuteCounts(s: State, n: nat, d: Id, t: int)
    requires n <= |s.attempts|
    ensures Started(s.jobs, s.attempts[..n], d, t - MINUTE, t) == |MinuteOf(s, n, d, t)|
    ensures n == |s.attempts| ==> InMinute(s, d, t) == |MinuteOf(s, n, d, t)|
  {
    if n > 0 {
      MinuteCounts(s, n - 1, d, t);
      assert s.attempts[..n][..n - 1] == s.attempts[..n - 1];
      assert MinuteOf(s, n, d, t) == MinuteOf(s, n - 1, d, t) + if StartedIn(s, n - 1, d, t) then {n - 1} else {};
    }
    assert s.attempts[..|s.attempts|] == s.attempts;
  }

  function AttemptsOf(attempts: seq<Attempt>, j: Id): set<nat> {
    set i: nat | i < |attempts| && attempts[i].job == j
  }

  lemma {:induction false} TriesCount(attempts: seq<Attempt>, j: Id)
    ensures Tries(attempts, j) == |AttemptsOf(attempts, j)|
  {
    if attempts != [] {
      var n := |attempts| - 1;
      TriesCount(attempts[..n], j);
      assert AttemptsOf(attempts, j) == AttemptsOf(attempts[..n], j) + if attempts[n].job == j then {n} else {};
    }
  }

  lemma RunningMembers(s: State, j: Id, d: Id)
    ensures j in RunningJobs(s) <==> j in s.jobs && s.jobs[j].status == Running
    ensures j in RunningOf(s, d) <==> j in s.jobs && s.jobs[j].status == Running && s.jobs[j].definition == d
  {
  }

  /** With the clock at `now` the rate query counts the attempts of the last minute. */
  lemma {:induction false} RecentIsTheLastMinute(s: State, n: nat, d: Id, now: int)
    requires n <= |s.attempts| && forall i :: 0 <= i < n ==> s.attempts[i].startedAt <= now
    ensures Recent(s.jobs, s.attempts[..n], d, now - MINUTE) == Started(s.jobs, s.attempts[..n], d, now - MINUTE, now)
    ensures n == |s.attempts| ==> Recent(s.jobs, s.attempts, d, now - MINUTE) == InMinute(s, d, now)
  {
    if n > 0 {
      RecentIsTheLastMinute(s, n - 1, d, now);
      assert s.attempts[..n][..n - 1] == s.attempts[..n - 1];
    }
    assert s.attempts[..|s.attempts|] == s.attempts;
  }

  // ----- Which job a claim starts -----

  /** Waiting, available, before its deadline, and of a live definition nobody paused. */
  predicate Due(s: State, j: Id, now: int) {
    && j in s.jobs && (s.jobs[j].status == Queued || s.jobs[j].status == RetryWait)
    && s.jobs[j].availableAt <= now < s.jobs[j].deadline
    && s.jobs[j].definition in s.definitions && s.definitions[s.jobs[j].definition].status == Live
    && s.jobs[j].definition !in s.haltedDefinitions
  }

  /** Available earlier, else created earlier, else of lower identity. */
  predicate Ahead(a: Job, i: Id, b: Job, k: Id) {
    || a.availableAt < b.availableAt
    || (a.availableAt == b.availableAt && a.createdAt < b.createdAt)
    || (a.availableAt == b.availableAt && a.createdAt == b.createdAt && i < k)
  }

  /** The candidate is the first of the due jobs, and only if the workspace is not paused,
      fewer than twenty jobs run, and its definition has both concurrency and rate to spare. */
  lemma CandidateIff(s: State, now: int, j: Id)
    requires Ordered(s) && s.clock <= now
    ensures ClaimCandidate(s, now) == Some(j) <==>
              && !s.halted && |RunningJobs(s)| < 20
              && Due(s, j, now) && (forall k :: Due(s, k, now) && k != j ==> Ahead(s.jobs[j], j, s.jobs[k], k))
              && |RunningOf(s, s.jobs[j].definition)| < s.definitions[s.jobs[j].definition].concurrency
              && InMinute(s, s.jobs[j].definition, now) < s.definitions[s.jobs[j].definition].rate
  {
    var rows := Eligible(s, now);
    assert forall k :: k in rows <==> Due(s, k, now);
    if rows != {} {
      var first := First(s, rows);
      assert forall k :: k in rows && k != first ==> Ahead(s.jobs[first], first, s.jobs[k], k);
      RecentIsTheLastMinute(s, |s.attempts|, s.jobs[first].definition, now);
    }
  }

  /** A claim sweeps, and then starts the next attempt of the candidate and nothing else,
      under a lease of thirty seconds. */
  lemma ClaimStarts(s: State, worker: string, now: int)
    ensures var swept := Swept(s.(clock := now), now);
            var t := Apply(s, Claim(worker), now);
            match ClaimCandidate(swept, now)
            case None => t == swept
            case Some(j) =>
              var job := swept.jobs[j];
              && t.attempts == s.attempts + [Attempt(j, job.attempts + 1, now)]
              && t.jobs == swept.jobs[j := job.(status := Running, attempts := job.attempts + 1, owner := worker,
                                                leaseEnds := now + 30_000_000)]
              && t == swept.(jobs := t.jobs, attempts := t.attempts)
  {
  }

  // ----- What a pause stops -----

  /** Paused by an operator, or its definition paused or not live. */
  predicate Paused(s: State, d: Id) {
    s.halted || d in s.haltedDefinitions || d !in s.definitions || s.definitions[d].status != Live
  }

  /** The attempts after the first `n` are none of the definition's. */
  ghost predicate NoneSince(t: State, n: nat, d: Id) {
    && n <= |t.attempts|
    && forall i :: n <= i < |t.attempts| ==>
         t.attempts[i].job in t.jobs && t.jobs[t.attempts[i].job].definition != d
  }

  /** No call changes which definition a job is of. */
  lemma DefinitionsStay(s: State, op: Op, now: int)
    requires Inv(s) && s.clock <= now
    ensures var t := Apply(s, op, now);
            forall j :: j in s.jobs ==> j in t.jobs && t.jobs[j].definition == s.jobs[j].definition
  {
    var ticked := s.(clock := now);
    TickKeeps(s, now);
    if op.Claim? {
      SweptStartsNone(ticked, now);
    } else {
      OtherCallsStartNone(ticked, op, now);
    }
  }

  lemma PausedStep(s: State, op: Op, now: int, d: Id)
    requires Inv(s) && s.clock <= now && !op.Control? && Paused(s, d)
    ensures var t := Apply(s, op, now);
            && Paused(t, d) && |s.attempts| <= |t.attempts| && t.attempts[..|s.attempts|] == s.attempts
            && NoneSince(t, |s.attempts|, d)
  {
    var ticked := s.(clock := now);
    TickKeeps(s, now);
    if op.Claim? {
      PausedClaim(ticked, op.worker, d);
    } else {
      OtherCallsStartNone(ticked, op, now);
      SamePauses(ticked, op, now);
    }
  }

  lemma SamePauses(s: State, op: Op, now: int)
    requires !op.Control? && !op.Claim?
    ensures var t := Act(s, op, now); t.halted == s.halted && t.haltedDefinitions == s.haltedDefinitions
  {
  }

  lemma PausedClaim(s: State, worker: string, d: Id)
    requires Inv(s) && Paused(s, d)
    ensures var t := DoClaim(s, worker, s.clock);
            && Paused(t, d) && |s.attempts| <= |t.attempts| && t.attempts[..|s.attempts|] == s.attempts
            && NoneSince(t, |s.attempts|, d)
  {
    var swept := Swept(s, s.clock);
    PausedIsNoCandidate(swept, d, s.clock);
  }

  lemma PausedIsNoCandidate(s: State, d: Id, now: int)
    requires Ordered(s) && s.clock <= now && Paused(s, d)
    ensures var found := ClaimCandidate(s, now);
            found.Some? ==> found.value in s.jobs && s.jobs[found.value].definition != d
  {
    if ClaimCandidate(s, now).Some? {
      CandidateIff(s, now, ClaimCandidate(s, now).value);
    }
  }

  /** As long as no operator changes the controls: while a definition is paused or not live,
      or the workspace is paused, no attempt of its jobs starts, ... */
  lemma {:induction false} PausedStartsNothing(s: State, calls: seq<(Op, int)>, d: Id)
    requires Inv(s) && ClockRuns(s.clock, calls) && Paused(s, d)
    requires forall i :: 0 <= i < |calls| ==> !calls[i].0.Control?
    ensures NoneSince(Run(s, calls), |s.attempts|, d) && Paused(Run(s, calls), d)
    ensures forall j :: j in s.jobs ==>
            j in Run(s, calls).jobs && Run(s, calls).jobs[j].definition == s.jobs[j].definition
    ensures |s.attempts| <= |Run(s, calls).attempts| && Run(s, calls).attempts[..|s.attempts|] == s.attempts
    decreases |calls|
  {
    if calls != [] {
      var t := Apply(s, calls[0].0, calls[0].1);
      PausedStep(s, calls[0].0, calls[0].1, d);
      DefinitionsStay(s, calls[0].0, calls[0].1);
      ApplyKeeps(s, calls[0].0, calls[0].1);
      PausedStartsNothing(t, calls[1..], d);
      var u := Run(s, calls);
      PausedComposes(s, t, u, d);
    }
  }

  lemma PausedComposes(s: State, t: State, u: State, d: Id)
    requires |s.attempts| <= |t.attempts| <= |u.attempts|
    requires t.attempts[..|s.attempts|] == s.attempts && u.attempts[..|t.attempts|] == t.attempts
    requires NoneSince(t, |s.attempts|, d) && NoneSince(u, |t.attempts|, d)
    requires forall j :: j in t.jobs ==> j in u.jobs && u.jobs[j].definition == t.jobs[j].definition
    ensures NoneSince(u, |s.attempts|, d) && u.attempts[..|s.attempts|] == s.attempts
  {
    assert u.attempts[..|s.attempts|] == u.attempts[..|t.attempts|][..|s.attempts|];
    forall i | |s.attempts| <= i < |t.attempts| ensures u.attempts[i] == t.attempts[i] {
      assert u.attempts[..|t.attempts|][i] == u.attempts[i];
    }
  }

  /** ... and while the workspace is paused none starts at all. */
  lemma {:induction false} HaltedWorkspaceStartsNothing(s: State, calls: seq<(Op, int)>)
    requires s.halted && forall i :: 0 <= i < |calls| ==> !calls[i].0.Control?
    ensures Run(s, calls).attempts == s.attempts && Run(s, calls).halted
    decreases |calls|
  {
    if calls != [] {
      HaltedWorkspaceStartsNothing(Apply(s, calls[0].0, calls[0].1), calls[1..]);
    }
  }

  /** The controls are exactly what the last operator call set. */
  lemma ControlsSet(s: State, halted: bool, definitions: set<Id>, now: int)
    ensures Apply(s, Control(halted, definitions), now)
            == s.(clock := now, halted := halted, haltedDefinitions := definitions)
  {
  }

  // ----- Leases -----

  /** The holder of the lease reports or asks something about the job. */
  predicate ByHolder(s: State, op: Op, j: Id) {
    j in s.jobs && (op.Heartbeat? || op.Succeed? || op.Fail?) && op.job == j && op.worker == s.jobs[j].owner
  }

  /** A running job as it stands, whatever was asked about cancelling it. */
  predicate SameAttempt(s: State, t: State, j: Id) {
    && j in s.jobs && j in t.jobs
    && t.jobs[j] == s.jobs[j].(cancelRequested := t.jobs[j].cancelRequested)
  }

  lemma LeaseStep(s: State, op: Op, j: Id, now: int)
    requires Ordered(s) && s.clock <= now && j in s.jobs && s.jobs[j].status == Running && now < s.jobs[j].leaseEnds
    requires !ByHolder(s, op, j)
    ensures SameAttempt(s, Apply(s, op, now), j) && Tries(Apply(s, op, now).attempts, j) == Tries(s.attempts, j)
  {
    var ticked := s.(clock := now);
    if op.Claim? {
      var swept := Swept(ticked, now);
      if ClaimCandidate(swept, now).Some? {
        var k := ClaimCandidate(swept, now).value;
        CandidateIff(swept, now, k);
        TriesExtend(s.attempts, Attempt(k, swept.jobs[k].attempts + 1, now), j);
      }
    }
  }

  predicate UnderLease(s: State, j: Id, until: int, calls: seq<(Op, int)>) {
    j in s.jobs && forall i :: 0 <= i < |calls| ==> calls[i].1 < until && !ByHolder(s, calls[i].0, j)
  }

  /** Until its lease ends a running job belongs to its holder: no claim and no call of
      another worker ends the attempt or starts a second one beside it. */
  lemma {:induction false} LeaseIsExclusive(s: State, calls: seq<(Op, int)>, j: Id)
    requires Inv(s) && ClockRuns(s.clock, calls) && j in s.jobs && s.jobs[j].status == Running
    requires UnderLease(s, j, s.jobs[j].leaseEnds, calls)
    ensures SameAttempt(s, Run(s, calls), j) && Tries(Run(s, calls).attempts, j) == Tries(s.attempts, j)
    decreases |calls|
  {
    if calls != [] {
      LeaseStep(s, calls[0].0, j, calls[0].1);
      ApplyKeeps(s, calls[0].0, calls[0].1);
      LeaseIsExclusive(Apply(s, calls[0].0, calls[0].1), calls[1..], j);
    }
  }

  // ----- How attempts end -----

  /** A failed attempt is retried exactly if its category allows, attempts are left and the
      retry comes before the deadline; a retry that would come too late expires the job, and
      everything else is dead-lettered. */
  lemma FailureDecided(d: Definition, j: Job, category: Category, now: int)
    requires Sane(d) && j.attempts > 0
    ensures var after := Ended(d, j, category, now);
            var retryable := (category == Transient || category == RateLimit || category == Quota)
                && j.attempts < d.maxAttempts;
            && (after.status == RetryWait <==> retryable && now + d.delays[j.attempts - 1] * 1_000_000 < j.deadline)
            && (after.status == Expired <==> retryable && now + d.delays[j.attempts - 1] * 1_000_000 >= j.deadline)
            && (after.status == DeadLettered <==> !retryable)
            && after.availableAt
                == (if after.status == RetryWait then now + d.delays[j.attempts - 1] * 1_000_000 else j.availableAt)
            && after == j.(status := after.status, availableAt := after.availableAt)
  {
  }

  /** Only the holder of a live lease can end an attempt or prolong its lease: a success is
      accepted unless a cancellation was asked for, a failure is decided as above, and a
      heartbeat gives another thirty seconds or ends a job that is to be cancelled. */
  lemma HolderDecides(s: State, j: Id, worker: string, category: Category, kept: bool, now: int)
    requires Inv(s) && s.clock <= now
    ensures j in s.jobs ==> s.jobs[j].definition in s.definitions
    ensures var held := && j in s.jobs && s.jobs[j].status == Running && s.jobs[j].owner == worker
                        && now < s.jobs[j].leaseEnds;
            var done, failed := Apply(s, Succeed(j, worker), now), Apply(s, Fail(j, worker, category), now);
            var beaten := Apply(s, Heartbeat(j, worker, kept), now);
            && done == s.(clock := now, jobs := done.jobs) && failed == s.(clock := now, jobs := failed.jobs)
            && beaten == s.(clock := now, jobs := beaten.jobs)
            && done.jobs
                == (if held && !s.jobs[j].cancelRequested then s.jobs[j := s.jobs[j].(status := Succeeded)] else s.jobs)
            && failed.jobs
                == (if held then s.jobs[j := Ended(s.definitions[s.jobs[j].definition], s.jobs[j], category, now)]
                               else s.jobs)
            && beaten.jobs == (if !held || (s.jobs[j].cancelRequested && !kept) then s.jobs
                               else if s.jobs[j].cancelRequested then s.jobs[j := s.jobs[j].(status := Cancelled)]
                               else s.jobs[j := s.jobs[j].(leaseEnds := now + 30_000_000)])
  {
    assert TriesBounded(s, j);
  }

  /** What the sweep before a claim does to a job: an attempt whose lease ran out ends like
      one that failed transiently, and a job still waiting at its deadline expires. */
  lemma SweepDecides(s: State, j: Id, now: int)
    requires Inv(s) && j in s.jobs
    ensures s.jobs[j].definition in s.definitions
    ensures var before, after := s.jobs[j], Swept(s, now).jobs[j];
            && Swept(s, now) == s.(jobs := Swept(s, now).jobs) && Swept(s, now).jobs.Keys == s.jobs.Keys
            && (before.status == Running && before.leaseEnds <= now ==>
                after == Ended(s.definitions[before.definition], before, Transient, now))
            && (before.status == Running && before.leaseEnds > now ==> after == before)
            && (before.status == Queued || before.status == RetryWait ==>
                after == if before.deadline <= now then before.(status := Expired) else before)
            && (Over(before) ==> after == before)
  {
    assert TriesBounded(s, j);
    assert Sane(s.definitions[s.jobs[j].definition]);
    if s.jobs[j].status == Running {
      FailureDecided(s.definitions[s.jobs[j].definition], s.jobs[j], Transient, now);
    }
  }

  /** The job will not be worked on any more. */
  predicate Over(j: Job) {
    j.status == Succeeded || j.status == Cancelled || j.status == DeadLettered || j.status == Expired
  }

  lemma OverStep(s: State, op: Op, j: Id, now: int)
    requires Ordered(s) && s.clock <= now && j in s.jobs && Over(s.jobs[j])
    ensures var t := Apply(s, op, now);
            j in t.jobs && t.jobs[j] == s.jobs[j] && Tries(t.attempts, j) == Tries(s.attempts, j)
  {
    if op.Claim? {
      OverIsPassed(s.(clock := now), op.worker, j);
    }
  }

  lemma OverIsPassed(s: State, worker: string, j: Id)
    requires Ordered(s) && j in s.jobs && Over(s.jobs[j])
    ensures var t := DoClaim(s, worker, s.clock);
            j in t.jobs && t.jobs[j] == s.jobs[j] && Tries(t.attempts, j) == Tries(s.attempts, j)
  {
    var swept := Swept(s, s.clock);
    assert swept.jobs[j] == s.jobs[j];
    if ClaimCandidate(swept, s.clock).Some? {
      var k := ClaimCandidate(swept, s.clock).value;
      CandidateIff(swept, s.clock, k);
      TriesExtend(s.attempts, Attempt(k, swept.jobs[k].attempts + 1, s.clock), j);
    }
  }

  /** A job that is over never changes again and is never tried again. */
  lemma {:induction false} OverForGood(s: State, calls: seq<(Op, int)>, j: Id)
    requires Inv(s) && ClockRuns(s.clock, calls) && j in s.jobs && Over(s.jobs[j])
    ensures var t := Run(s, calls);
            j in t.jobs && t.jobs[j] == s.jobs[j] && Tries(t.attempts, j) == Tries(s.attempts, j)
    decreases |calls|
  {
    if calls != [] {
      OverStep(s, calls[0].0, j, calls[0].1);
      ApplyKeeps(s, calls[0].0, calls[0].1);
      OverForGood(Apply(s, calls[0].0, calls[0].1), calls[1..], j);
    }
  }

  /** A job is enqueued exactly under a new identity, for a known definition that is not
      retired, and with a deadline after it becomes available. */
  lemma EnqueuedIff(s: State, j: Id, d: Id, availableAt: int, deadline: int, now: int)
    ensures var t := Apply(s, Enqueue(j, d, availableAt, deadline), now);
            if j !in s.jobs && d in s.definitions && s.definitions[d].status != Retired && availableAt < deadline
            then t == s.(clock := now, jobs := s.jobs[j := Job(d, Queued, availableAt, now, deadline, 0, "", 0, false)])
            else t == s.(clock := now)
  {
  }

  /** A cancellation is refused exactly for unknown jobs and jobs that are over; it ends a
      waiting job and leaves a running one with its holder. */
  lemma CancelledIff(s: State, j: Id, now: int)
    ensures var t := Apply(s, Cancel(j), now);
            && t == s.(clock := now, jobs := t.jobs)
            && t.jobs == if j !in s.jobs || Over(s.jobs[j]) then s.jobs
                         else if s.jobs[j].status == Running then s.jobs[j := s.jobs[j].(cancelRequested := true)]
                         else s.jobs[j := s.jobs[j].(cancelRequested := true, status := Cancelled)]
  {
  }

  // ----- Attempts of one job -----

  /** Attempt `k` is the job's next one after attempt `i`. */
  predicate Consecutive(s: State, i: nat, k: nat) {
    && i < k < |s.attempts| && s.attempts[i].job == s.attempts[k].job
    && forall m :: i < m < k ==> s.attempts[m].job != s.attempts[k].job
  }

  lemma {:induction false} LatestAttempt(attempts: seq<Attempt>, i: nat, n: nat, j: Id)
    requires i < n <= |attempts| && attempts[i].job == j && forall m :: i < m < n ==> attempts[m].job != j
    ensures LastStart(attempts[..n], j) == attempts[i].startedAt
    ensures Tries(attempts[..n], j) == Tries(attempts[..i], j) + 1
  {
    assert attempts[..n][..n - 1] == attempts[..n - 1];
    if n > i + 1 {
      LatestAttempt(attempts, i, n - 1, j);
    }
  }

  lemma {:induction false} SpacedUpTo(s: State, n: nat, k: nat)
    requires k <= n <= |s.attempts| && Spaced(s, n)
    ensures Spaced(s, k)
  {
    if k < n {
      SpacedUpTo(s, n - 1, k);
    }
  }

  /** From an empty workspace: a job's attempts are numbered from one on, and each starts no
      earlier than the one before plus the delay its definition gives for that number. */
  lemma AttemptsInTurn(definitions: map<Id, Definition>, now: int, calls: seq<(Op, int)>, i: nat, k: nat)
    requires forall d :: d in definitions ==> Sane(definitions[d])
    requires ClockRuns(now, calls)
    requires Consecutive(Run(State(definitions, map[], [], false, {}, now), calls), i, k)
    ensures InTurn(Run(State(definitions, map[], [], false, {}, now), calls), i, k)
  {
    var start := State(definitions, map[], [], false, {}, now);
    StartHolds(start);
    EveryRunKeepsTheGates(start, calls);
    RetriesWaitOutTheirDelay(start, calls);
    ConsecutiveInTurn(Run(start, calls), i, k);
  }

  /** Attempt `k` has the number after attempt `i` and starts after its delay. */
  predicate InTurn(s: State, i: nat, k: nat)
    requires i < k < |s.attempts|
  {
    var a, b := s.attempts[i], s.attempts[k];
    && b.number == a.number + 1
    && b.job in s.jobs && s.jobs[b.job].definition in s.definitions
    && var delays := s.definitions[s.jobs[b.job].definition].delays;
    && 1 <= a.number <= |delays| && a.startedAt + delays[a.number - 1] * 1_000_000 <= b.startedAt
  }

  lemma ConsecutiveInTurn(s: State, i: nat, k: nat)
    requires Inv(s) && Backoff(s) && Consecutive(s, i, k)
    ensures InTurn(s, i, k)
  {
    var j := s.attempts[k].job;
    SpacedUpTo(s, |s.attempts|, k + 1);
    SpacedUpTo(s, |s.attempts|, i + 1);
    LatestAttempt(s.attempts, i, k, j);
    NumbersWithinDelays(s, k);
  }

  lemma NumbersWithinDelays(s: State, k: nat)
    requires Inv(s) && k < |s.attempts|
    ensures var j := s.attempts[k].job;
            && j in s.jobs && s.jobs[j].definition in s.definitions
            && Tries(s.attempts[..k], j) <= |s.definitions[s.jobs[j].definition].delays|
  {
    var j := s.attempts[k].job;
    TriesGrow(s.attempts, k + 1, j);
    assert s.attempts[..k + 1][..k] == s.attempts[..k];
    assert TriesBounded(s, j);
    assert Sane(s.definitions[s.jobs[j].definition]);
  }

  lemma StartHolds(s: State)
    requires s.jobs == map[] && s.attempts == [] && forall d :: d in s.definitions ==> Sane(s.definitions[d])
    ensures Inv(s) && Backoff(s)
  {
    assert RunningJobs(s) == {};
    forall d ensures ConcurrencyKept(s, d) && RateKept(s, d) {
      assert RunningOf(s, d) == {};
    }
  }

  lemma {:induction false} TriesGrow(attempts: seq<Attempt>, n: nat, j: Id)
    requires n <= |attempts|
    ensures Tries(attempts[..n], j) <= Tries(attempts, j)
    decreases |attempts|
  {
    if n < |attempts| {
      var shorter := attempts[..|attempts| - 1];
      TriesGrow(shorter, n, j);
      assert shorter[..n] == attempts[..n];
    } else {
      assert attempts[..n] == attempts;
    }
  }

  /** The first attempt of a job is its number one. */
  lemma FirstAttempt(definitions: map<Id, Definition>, now: int, calls: seq<(Op, int)>, k: nat)
    requires forall d :: d in definitions ==> Sane(definitions[d])
    requires ClockRuns(now, calls)
    ensures var s := Run(State(definitions, map[], [], false, {}, now), calls);
            k < |s.attempts| && (forall m :: 0 <= m < k ==> s.attempts[m].job != s.attempts[k].job) ==>
              s.attempts[k].number == 1
  {
    var start := State(definitions, map[], [], false, {}, now);
    StartHolds(start);
    RetriesWaitOutTheirDelay(start, calls);
    var s := Run(start, calls);
    if k < |s.attempts| && forall m :: 0 <= m < k ==> s.attempts[m].job != s.attempts[k].job {
      SpacedUpTo(s, |s.attempts|, k + 1);
      NeverTried(s.attempts, k, s.attempts[k].job);
    }
  }

  lemma {:induction false} NeverTried(attempts: seq<Attempt>, k: nat, j: Id)
    requires k <= |attempts| && forall m :: 0 <= m < k ==> attempts[m].job != j
    ensures Tries(attempts[..k], j) == 0
  {
    if k > 0 {
      NeverTried(attempts, k - 1, j);
      assert attempts[..k][..k - 1] == attempts[..k - 1];
    }
  }

  /** A run is the calls one after another. */
  lemma {:induction false} RunsCompose(s: State, a: seq<(Op, int)>, b: seq<(Op, int)>, op: Op, now: int)
    ensures Run(s, a + b) == Run(Run(s, a), b)
    ensures Run(s, [(op, now)]) == Apply(s, op, now)
    decreases |a|
  {
    if a == [] {
      assert a + b == b;
    } else {
      assert (a + b)[1..] == a[1..] + b;
      RunsCompose(Apply(s, a[0].0, a[0].1), a[1..], b, op, now);
    }
  }
}
