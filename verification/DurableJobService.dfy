/** The job service as it runs: rows updated in place, one claim at a time. */
module DurableJobService {
  import opened Arithmetic
  import opened Wrappers
  import opened JobQueue

  class JobService {
    const definitions: map<Id, Definition>
    var jobs: map<Id, Job>
    var attempts: seq<Attempt>
    var halted: bool
    var haltedDefinitions: set<Id>

    ghost function View(now: int): State
      reads this
    {
      State(definitions, jobs, attempts, halted, haltedDefinitions, now)
    }

    /** The gates and the retry delays hold, with the clock at `now`. */
    ghost predicate Valid(now: int)
      reads this
    {
      Inv(View(now)) && Backoff(View(now))
    }

    constructor (definitions: map<Id, Definition>)
      ensures this.definitions == definitions
      ensures forall now :: View(now) == State(definitions, map[], [], false, {}, now)
    {
      this.definitions := definitions;
      jobs, attempts, halted, haltedDefinitions := map[], [], false, {};
    }

    /** Abandons the attempts whose lease ran out, then expires waiting jobs past their deadline. */
    method Sweep(now: int)
      modifies this`jobs
      ensures View(now) == Swept(old(View(now)), now)
    {
      var todo := jobs.Keys;
      while todo != {}
        invariant jobs.Keys == old(jobs).Keys && todo <= jobs.Keys
        invariant forall j :: j in jobs ==>
                  jobs[j] == if j in todo then old(jobs)[j] else RecoverExpired(definitions, old(jobs)[j], now)
        decreases |todo|
      {
        var j :| j in todo;
        if jobs[j].status.Running? && jobs[j].leaseEnds <= now && jobs[j].definition in definitions {
          jobs := jobs[j := Ended(definitions[jobs[j].definition], jobs[j], Transient, now)];
        }
        todo := todo - {j};
      }
      ghost var recovered := jobs;
      todo := jobs.Keys;
      while todo != {}
        invariant jobs.Keys == recovered.Keys && todo <= jobs.Keys
        invariant forall j :: j in jobs ==>
                  jobs[j] == if j in todo then recovered[j] else ExpireWaiting(recovered[j], now)
        decreases |todo|
      {
        var j :| j in todo;
        if (jobs[j].status.Queued? || jobs[j].status.RetryWait?) && jobs[j].deadline <= now {
          jobs := jobs[j := jobs[j].(status := Expired)];
        }
        todo := todo - {j};
      }
    }

    /** The two counts and the ordered query of the claim, all on the rows as they are. */
    method SelectCandidate(now: int) returns (candidate: Option<Id>)
      ensures candidate == ClaimCandidate(View(now), now)
    {
      if halted {
        return None;
      }
      var running := set j | j in jobs && jobs[j].status.Running?;
      assert running == RunningJobs(View(now));
      if |running| >= WORKSPACE_CEILING {
        return None;
      }
      var rows := set j | j in jobs && (jobs[j].status.Queued? || jobs[j].status.RetryWait?)
                          && jobs[j].availableAt <= now && jobs[j].deadline > now
                          && jobs[j].definition in definitions && definitions[jobs[j].definition].status.Live?
                          && jobs[j].definition !in haltedDefinitions;
      assert rows == Eligible(View(now), now);
      if rows == {} {
        return None;
      }
      var first := FirstRow(rows, now);
      var d := jobs[first].definition;
      var same := set j | j in jobs && jobs[j].status.Running? && jobs[j].definition == d;
      assert same == RunningOf(View(now), d);
      if |same| >= definitions[d].concurrency {
        return None;
      }
      var recent := CountRecent(d, now - MINUTE);
      if recent >= definitions[d].rate {
        return None;
      }
      return Some(first);
    }

    method FirstRow(rows: set<Id>, now: int) returns (first: Id)
      requires rows != {} && rows <= jobs.Keys
      ensures first == First(View(now), rows)
    {
      first :| first in rows;
      var todo := rows - {first};
      while todo != {}
        invariant todo <= rows && first in rows
        invariant forall k :: k in rows && k !in todo ==> Before(View(now), first, k)
        decreases |todo|
      {
        var k :| k in todo;
        var a, b := jobs[first], jobs[k];
        if b.availableAt < a.availableAt
           || (b.availableAt == a.availableAt
               && (b.createdAt < a.createdAt || (b.createdAt == a.createdAt && k < first))) {
          first := k;
        }
        todo := todo - {k};
      }
      assert Before(View(now), first, First(View(now), rows)) && Before(View(now), First(View(now), rows), first);
    }

    method CountRecent(d: Id, from: int) returns (n: nat)
      ensures n == Recent(jobs, attempts, d, from)
    {
      n := 0;
      for i := 0 to |attempts|
        invariant n == Recent(jobs, attempts[..i], d, from)
      {
        assert attempts[..i + 1][..i] == attempts[..i];
        var a := attempts[i];
        if a.startedAt > from && a.job in jobs && jobs[a.job].definition == d {
          n := n + 1;
        }
      }
      assert attempts[..|attempts|] == attempts;
    }

    method ClaimNext(worker: string, now: int) returns (claimed: Option<Id>)
      modifies this`jobs, this`attempts
      ensures View(now) == DoClaim(old(View(now)), worker, now)
      ensures claimed == ClaimCandidate(Swept(old(View(now)), now), now)
      ensures old(Valid(now)) ==> Valid(now)
    {
      if Valid(now) {
        ClaimKeeps(View(now), worker);
        ClaimBackoff(View(now), worker);
      }
      Sweep(now);
      claimed := SelectCandidate(now);
      if claimed.None? {
        return;
      }
      var j := claimed.value;
      var n := jobs[j].attempts + 1;
      jobs := jobs[j := jobs[j].(attempts := n, status := Running, owner := worker, leaseEnds := now + LEASE)];
      attempts := attempts + [Attempt(j, n, now)];
    }
  }
}
