/** The connection lifecycle twice over: the service that changes a row, and the database
    trigger and CHECK constraint that judge the change. */
module Connections {
  import opened Wrappers

  datatype Status = Pending | Active | Degraded | ReauthorizationRequired | Revoked | Closed

  /** The columns the trigger declares immutable. */
  datatype Identity = Identity(workspace: nat, organization: nat, cell: nat, provider: string, providerVersion: int,
                               kind: string, kindVersion: int, account: string, creator: nat)

  datatype Row = Row(identity: Identity, status: Status, version: int,
                     activatedAt: Option<int>, degradedAt: Option<int>, reauthorizationAt: Option<int>,
                     revokedAt: Option<int>, closedAt: Option<int>)

  type Capability = (string, int)
  datatype Grant = Granted | Withdrawn

  /** The row, its capability grants, and the sequence numbers of its material events. */
  datatype State = State(row: Row, grants: map<Capability, Grant>, events: seq<int>)

  datatype Op =
    | Transition(expected: int, target: Status)
    | GrantCapability(expected: int, capability: Capability, allowed: bool)
    | RevokeCapability(expected: int, capability: Capability)

  datatype Error = StaleVersion | InvalidTransition | Immutable | UnknownCapability | AlreadyGranted | NotGranted

  datatype Step = Step(state: State, error: Option<Error>)

  // ----- The database's view -----

  /** `enforce_connection_update`: may the old row become the new one? */
  predicate TriggerAccepts(old_: Row, new_: Row) {
    && new_.identity == old_.identity
    && new_.version == old_.version + 1
    && (new_.status == old_.status ||
        match old_.status
        case Pending =>
          new_.status.Active? || new_.status.ReauthorizationRequired? || new_.status.Revoked? || new_.status.Closed?
        case Active =>
          new_.status.Degraded? || new_.status.ReauthorizationRequired? || new_.status.Revoked? || new_.status.Closed?
        case Degraded =>
          new_.status.Active? || new_.status.ReauthorizationRequired? || new_.status.Revoked? || new_.status.Closed?
        case ReauthorizationRequired => new_.status.Active? || new_.status.Revoked? || new_.status.Closed?
        case Revoked => new_.status.Closed?
        case Closed => false)
  }

  /** `ck_connections_lifecycle_evidence` and `ck_connections_version`. */
  predicate CheckAccepts(r: Row) {
    && r.version > 0
    && (|| (r.status.Pending? && r.activatedAt.None? && r.revokedAt.None? && r.closedAt.None?)
        || ((r.status.Active? || r.status.Degraded?) && r.activatedAt.Some? && r.revokedAt.None? && r.closedAt.None?)
        || (r.status.ReauthorizationRequired? && r.revokedAt.None? && r.closedAt.None?)
        || (r.status.Revoked? && r.revokedAt.Some? && r.closedAt.None?)
        || (r.status.Closed? && r.closedAt.Some?))
  }

  // ----- The service -----

  const TRANSITIONS: map<Status, set<Status>> := map[
    Pending := {Active, ReauthorizationRequired, Revoked, Closed},
    Active := {Degraded, ReauthorizationRequired, Revoked, Closed},
    Degraded := {Active, ReauthorizationRequired, Revoked, Closed},
    ReauthorizationRequired := {Active, Revoked, Closed},
    Revoked := {Closed},
    Closed := {}]

  predicate Allowed(from: Status, to: Status) {
    from in TRANSITIONS && to in TRANSITIONS[from]
  }

  function Create(identity: Identity, capabilities: set<Capability>): State {
    State(Row(identity, Pending, 1, None, None, None, None, None), map c | c in capabilities :: Granted, [1])
  }

  function Moved(r: Row, target: Status, now: int): Row {
    var moved := r.(status := target, version := r.version + 1);
    match target
    case Active =>
      moved.(activatedAt := if r.activatedAt.Some? then r.activatedAt else Some(now),
             degradedAt := None, reauthorizationAt := None)
    case Degraded => moved.(degradedAt := Some(now))
    case ReauthorizationRequired => moved.(reauthorizationAt := Some(now))
    case Revoked => moved.(revokedAt := Some(now))
    case Closed => moved.(closedAt := Some(now))
    case Pending => moved
  }

  function Recorded(s: State): State { s.(events := s.events + [s.row.version]) }

  function Refused(s: State, e: Error): Step { Step(s, Some(e)) }

  predicate Frozen(r: Row) { r.status.Revoked? || r.status.Closed? }

  function Apply(s: State, op: Op, now: int): Step {
    match op
    case Transition(expected, target) =>
      if s.row.version != expected then Refused(s, StaleVersion)
      else if !Allowed(s.row.status, target) then Refused(s, InvalidTransition)
      else Step(Recorded(s.(row := Moved(s.row, target, now))), None)
    case GrantCapability(expected, capability, allowed) =>
      if Frozen(s.row) then Refused(s, Immutable)
      else if s.row.version != expected then Refused(s, StaleVersion)
      else if !allowed then Refused(s, UnknownCapability)
      else if capability in s.grants && s.grants[capability].Granted? then Refused(s, AlreadyGranted)
      else Step(Recorded(s.(grants := s.grants[capability := Granted],
                            row := s.row.(version := s.row.version + 1))), None)
    case RevokeCapability(expected, capability) =>
      if Frozen(s.row) then Refused(s, Immutable)
      else if s.row.version != expected then Refused(s, StaleVersion)
      else if capability !in s.grants || s.grants[capability].Withdrawn? then Refused(s, NotGranted)
      else Step(Recorded(s.(grants := s.grants[capability := Withdrawn],
                            row := s.row.(version := s.row.version + 1))), None)
  }

  function Run(s: State, calls: seq<(Op, int)>): State
    decreases |calls|
  {
    if calls == [] then s else Run(Apply(s, calls[0].0, calls[0].1).state, calls[1..])
  }

  // ----- The two views agree -----

  /** The service's table and the trigger's CASE allow the same changes of status; the
      trigger also takes the next version of the same row and no other. */
  lemma TablesAgree(old_: Row, new_: Row)
    ensures TriggerAccepts(old_, new_) <==>
            && new_.identity == old_.identity && new_.version == old_.version + 1
            && (new_.status == old_.status || Allowed(old_.status, new_.status))
  {
    assert TRANSITIONS.Keys == {Pending, Active, Degraded, ReauthorizationRequired, Revoked, Closed};
  }

  /** What the CHECK makes of the evidence: closed rows and no others are stamped closed,
      revoked rows and no other open ones revoked, active and degraded rows were activated,
      and pending ones never were. */
  lemma EvidenceIff(r: Row)
    ensures CheckAccepts(r) <==>
            && r.version >= 1
            && (r.closedAt.Some? <==> r.status.Closed?)
            && (!r.status.Closed? ==> (r.revokedAt.Some? <==> r.status.Revoked?))
            && (r.status.Active? || r.status.Degraded? ==> r.activatedAt.Some?)
            && (r.status.Pending? ==> r.activatedAt.None?)
  {
  }

  ghost predicate Inv(s: State) {
    && CheckAccepts(s.row)
    && |s.events| == s.row.version
    && forall i :: 0 <= i < |s.events| ==> s.events[i] == i + 1
  }

  /** A call that goes through is accepted by the trigger and by the CHECK; one that does
      not leaves everything as it was. */
  lemma DatabaseAcceptsEveryCall(s: State, op: Op, now: int)
    requires Inv(s)
    ensures var step := Apply(s, op, now);
            && Inv(step.state)
            && (step.error == None ==> TriggerAccepts(s.row, step.state.row))
            && (step.error.Some? ==> step.state == s)
  {
    if op.Transition? && Apply(s, op, now).error == None {
      TablesAgree(s.row, Moved(s.row, op.target, now));
    }
  }

  predicate Ended(s: State) { Frozen(s.row) }

  /** From creation on, every reachable row passes the CHECK and its events number exactly
      1 up to its version; a revoked connection is never active again and never changes
      its grants. */
  lemma {:induction false} EveryRunIsLawful(s: State, calls: seq<(Op, int)>)
    requires Inv(s)
    ensures var t := Run(s, calls);
            && Inv(t) && t.row.identity == s.row.identity && t.row.version >= s.row.version
            && (Ended(s) ==> Ended(t) && t.grants == s.grants && (s.row.status.Closed? ==> t == s))
            && (t.row.version == s.row.version ==> t == s)
    decreases |calls|
  {
    if calls != [] {
      var next := Apply(s, calls[0].0, calls[0].1).state;
      DatabaseAcceptsEveryCall(s, calls[0].0, calls[0].1);
      EveryRunIsLawful(next, calls[1..]);
    }
  }

  lemma CreatedIsLawful(identity: Identity, capabilities: set<Capability>, calls: seq<(Op, int)>)
    ensures var t := Run(Create(identity, capabilities), calls);
            && CheckAccepts(t.row) && |t.events| == t.row.version
            && forall i :: 0 <= i < |t.events| ==> t.events[i] == i + 1
  {
    EveryRunIsLawful(Create(identity, capabilities), calls);
  }

  // ----- What each call achieves -----

  /** When the row last entered a status, as its columns record it. */
  function Stamp(r: Row, status: Status): Option<int> {
    match status
    case Pending => None
    case Active => r.activatedAt
    case Degraded => r.degradedAt
    case ReauthorizationRequired => r.reauthorizationAt
    case Revoked => r.revokedAt
    case Closed => r.closedAt
  }

  /** A transition goes through exactly when the expected version is the current one and
      the trigger takes the new status; then the connection has that status, stamped with
      the time of the call. A first activation keeps its stamp, and a new activation clears
      what it recovered from. */
  lemma TransitionReaches(s: State, expected: int, target: Status, now: int)
    ensures var step := Apply(s, Transition(expected, target), now);
            var r := step.state.row;
            && (step.error == None <==>
                && s.row.version == expected && s.row.status != target
                && TriggerAccepts(s.row, s.row.(status := target, version := s.row.version + 1)))
            && (step.error == Some(StaleVersion) <==> s.row.version != expected)
            && (step.error == None ==>
                && r.status == target && step.state.grants == s.grants
                && Stamp(r, target) == (if target.Active? then Some(s.row.activatedAt.GetOr(now)) else Some(now))
                && forall other :: other != target ==>
                     Stamp(r, other) == if target.Active? && (other.Degraded? || other.ReauthorizationRequired?)
                                        then None else Stamp(s.row, other))
  {
    if s.row.status != target {
      TablesAgree(s.row, s.row.(status := target, version := s.row.version + 1));
    }
    assert forall status :: status in TRANSITIONS ==> status !in TRANSITIONS[status];
  }

  function GrantedTo(s: State): set<Capability> {
    set c | c in s.grants && s.grants[c].Granted?
  }

  /** A capability is granted exactly when it was not, and withdrawn exactly when it was,
      on a row that is neither stale nor revoked nor closed; no other one is touched, and a
      withdrawn one stays on record. */
  lemma GrantsFollow(s: State, expected: int, c: Capability, allowed: bool, now: int)
    ensures var usable := !s.row.status.Revoked? && !s.row.status.Closed? && s.row.version == expected;
            var given := Apply(s, GrantCapability(expected, c, allowed), now);
            var taken := Apply(s, RevokeCapability(expected, c), now);
            && (given.error == None <==> usable && allowed && c !in GrantedTo(s))
            && (taken.error == None <==> usable && c in GrantedTo(s))
            && (given.error == None ==>
                GrantedTo(given.state) == GrantedTo(s) + {c} && given.state.row.status == s.row.status)
            && (taken.error == None ==>
                && GrantedTo(taken.state) == GrantedTo(s) - {c} && taken.state.row.status == s.row.status
                && taken.state.grants.Keys == s.grants.Keys)
  {
    var given := Apply(s, GrantCapability(expected, c, allowed), now);
    var taken := Apply(s, RevokeCapability(expected, c), now);
    if given.error == None {
      assert GrantedTo(given.state) == GrantedTo(s) + {c};
    }
    if taken.error == None {
      assert GrantedTo(taken.state) == GrantedTo(s) - {c};
    }
  }

  /** Why a call is refused: first an ended connection, then a stale version. */
  lemma RefusalsInOrder(s: State, expected: int, c: Capability, allowed: bool, target: Status, now: int)
    ensures var moved := Apply(s, Transition(expected, target), now).error;
            var given := Apply(s, GrantCapability(expected, c, allowed), now).error;
            var taken := Apply(s, RevokeCapability(expected, c), now).error;
            var ended, current := s.row.status.Revoked? || s.row.status.Closed?, s.row.version == expected;
            && (moved.Some? && current ==> moved == Some(InvalidTransition))
            && (given == Some(Immutable) <==> ended) && (taken == Some(Immutable) <==> ended)
            && (given == Some(StaleVersion) <==> !ended && !current)
            && (taken == Some(StaleVersion) <==> !ended && !current)
            && (given == Some(UnknownCapability) <==> !ended && current && !allowed)
            && (given == Some(AlreadyGranted) <==> !ended && current && allowed && c in GrantedTo(s))
            && (taken == Some(NotGranted) <==> !ended && current && c !in GrantedTo(s))
  {
  }

  /** A new connection is pending, with exactly the capabilities asked for. */
  lemma CreatedAsAsked(identity: Identity, capabilities: set<Capability>)
    ensures var s := Create(identity, capabilities);
            && s.row.identity == identity && s.row.status == Pending && GrantedTo(s) == capabilities
            && forall status :: Stamp(s.row, status) == None
  {
    assert GrantedTo(Create(identity, capabilities)) == capabilities;
  }

  /** A run is the calls one after another. */
  lemma {:induction false} RunsCompose(s: State, a: seq<(Op, int)>, b: seq<(Op, int)>, op: Op, now: int)
    ensures Run(s, a + b) == Run(Run(s, a), b)
    ensures Run(s, [(op, now)]) == Apply(s, op, now).state
    decreases |a|
  {
    if a == [] {
      assert a + b == b;
    } else {
      assert (a + b)[1..] == a[1..] + b;
      RunsCompose(Apply(s, a[0].0, a[0].1).state, a[1..], b, op, now);
    }
  }

  // ----- Where a connection can still go -----

  /** A chain of transitions that leads from one status to another. */
  predicate Leads(from: Status, path: seq<Status>, to: Status)
    decreases |path|
  {
    if path == [] then from == to else Allowed(from, path[0]) && Leads(path[0], path[1..], to)
  }

  predicate CanReach(from: Status, to: Status) {
    match from
    case Closed => to.Closed?
    case Revoked => to.Revoked? || to.Closed?
    case _ => to == from || !to.Pending?
  }

  /** Short of revocation and closure every status but the initial one can be reached from
      every other, any number of times; revocation leads to closure only. */
  lemma LeadsIffReachable(from: Status, to: Status)
    ensures (exists path :: Leads(from, path, to)) <==> CanReach(from, to)
  {
    forall path | Leads(from, path, to) ensures CanReach(from, to) {
      LeadsOnlyThere(from, path, to);
    }
    if CanReach(from, to) {
      var path := PathTo(from, to);
      assert exists p :: Leads(from, p, to);
    }
  }

  lemma PathTo(from: Status, to: Status) returns (path: seq<Status>)
    requires CanReach(from, to)
    ensures Leads(from, path, to)
  {
    var here := [to][1..];
    if from == to {
      path := here;
    } else if Allowed(from, to) {
      LeadsNext(from, to, here, to);
      path := [to] + here;
    } else {
      LeadsNext(Active, to, here, to);
      LeadsNext(from, Active, [to] + here, to);
      path := [Active] + ([to] + here);
    }
  }

  lemma LeadsNext(from: Status, next: Status, path: seq<Status>, to: Status)
    ensures Allowed(from, next) && Leads(next, path, to) ==> Leads(from, [next] + path, to)
  {
    assert ([next] + path)[1..] == path;
  }

  lemma {:induction false} LeadsOnlyThere(from: Status, path: seq<Status>, to: Status)
    requires Leads(from, path, to)
    ensures CanReach(from, to)
    decreases |path|
  {
    if path != [] {
      LeadsOnlyThere(path[0], path[1..], to);
    }
  }

  // ----- The row the service updates -----

  class Connection {
    const identity: Identity
    var status: Status
    var version: int
    var activatedAt: Option<int>
    var degradedAt: Option<int>
    var reauthorizationAt: Option<int>
    var revokedAt: Option<int>
    var closedAt: Option<int>
    var grants: map<Capability, Grant>
    var events: seq<int>

    ghost function View(): State
      reads this
    {
      State(Row(identity, status, version, activatedAt, degradedAt, reauthorizationAt, revokedAt, closedAt),
            grants, events)
    }

    /** The row passes the CHECK and its events number 1 up to its version. */
    ghost predicate Valid()
      reads this
    {
      Inv(View())
    }

    constructor (identity: Identity, capabilities: set<Capability>)
      ensures View() == Create(identity, capabilities) && Valid()
    {
      this.identity := identity;
      status, version := Pending, 1;
      activatedAt, degradedAt, reauthorizationAt, revokedAt, closedAt := None, None, None, None, None;
      grants := map c | c in capabilities :: Granted;
      events := [1];
    }

    method MoveTo(expected: int, target: Status, now: int) returns (error: Option<Error>)
      modifies this
      ensures Step(View(), error) == Apply(old(View()), Transition(expected, target), now)
      ensures old(Valid()) ==> Valid() && (error == None ==> TriggerAccepts(old(View()).row, View().row))
    {
      if Valid() {
        DatabaseAcceptsEveryCall(View(), Transition(expected, target), now);
      }
      if version != expected {
        return Some(StaleVersion);
      }
      if !Allowed(status, target) {
        return Some(InvalidTransition);
      }
      status := target;
      version := version + 1;
      if target.Active? {
        activatedAt := if activatedAt.Some? then activatedAt else Some(now);
        degradedAt := None;
        reauthorizationAt := None;
      } else if target.Degraded? {
        degradedAt := Some(now);
      } else if target.ReauthorizationRequired? {
        reauthorizationAt := Some(now);
      } else if target.Revoked? {
        revokedAt := Some(now);
      } else if target.Closed? {
        closedAt := Some(now);
      }
      events := events + [version];
      return None;
    }

    method Allow(expected: int, capability: Capability, allowed: bool, now: int) returns (error: Option<Error>)
      modifies this
      ensures Step(View(), error) == Apply(old(View()), GrantCapability(expected, capability, allowed), now)
      ensures old(Valid()) ==> Valid() && (error == None ==> TriggerAccepts(old(View()).row, View().row))
    {
      if Valid() {
        DatabaseAcceptsEveryCall(View(), GrantCapability(expected, capability, allowed), now);
      }
      if status.Revoked? || status.Closed? {
        return Some(Immutable);
      }
      if version != expected {
        return Some(StaleVersion);
      }
      if !allowed {
        return Some(UnknownCapability);
      }
      if capability in grants && grants[capability].Granted? {
        return Some(AlreadyGranted);
      }
      grants := grants[capability := Granted];
      version := version + 1;
      events := events + [version];
      return None;
    }

    method Withdraw(expected: int, capability: Capability, now: int) returns (error: Option<Error>)
      modifies this
      ensures Step(View(), error) == Apply(old(View()), RevokeCapability(expected, capability), now)
      ensures old(Valid()) ==> Valid() && (error == None ==> TriggerAccepts(old(View()).row, View().row))
    {
      if Valid() {
        DatabaseAcceptsEveryCall(View(), RevokeCapability(expected, capability), now);
      }
      if status.Revoked? || status.Closed? {
        return Some(Immutable);
      }
      if version != expected {
        return Some(StaleVersion);
      }
      if capability !in grants || grants[capability].Withdrawn? {
        return Some(NotGranted);
      }
      grants := grants[capability := Withdrawn];
      version := version + 1;
      events := events + [version];
      return None;
    }
  }
}
