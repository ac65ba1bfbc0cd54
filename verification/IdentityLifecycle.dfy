/** Sessions and single-use lifecycle tokens, kept only as hashes of their secrets. */
module IdentityLifecycle {
  import opened Wrappers

  type Id = nat
  type Hash = string -> string

  datatype Strength = Oidc | Password | Mfa
  datatype Purpose = Invitation | Recovery

  datatype User = User(active: bool, mfaRequired: bool)
  datatype Session = Session(workspace: Id, user: Id, hash: string, strength: Strength, mfaAt: Option<int>,
                             lastSeen: int, expiresAt: int, revokedAt: Option<int>)
  datatype Token = Token(workspace: Id, user: Option<Id>, purpose: Purpose, hash: string, authority: Option<string>,
                         expiresAt: int, consumedAt: Option<int>, revokedAt: Option<int>)

  datatype State = State(users: map<Id, User>, sessions: map<Id, Session>, tokens: map<Id, Token>)

  /** The identity and the secret of a new row are drawn by the service. */
  datatype Op =
    | IssueSession(workspace: Id, user: Id, strength: Strength, expiresAt: int, mfaAt: Option<int>, id: Id,
                   newSecret: string)
    | Authenticate(workspace: Id, secret: string)
    | RevokeSession(workspace: Id, session: Id)
    | RotateSession(workspace: Id, secret: string, expiresAt: int, id: Id, newSecret: string)
    | IssueToken(workspace: Id, purpose: Purpose, expiresAt: int, authority: Option<string>, subject: Option<Id>,
                 id: Id, newSecret: string)
    | ConsumeToken(workspace: Id, secret: string, purpose: Purpose, authority: Option<string>)
    | RevokeToken(workspace: Id, token: Id)
    | RecoverAccount(workspace: Id, secret: string)

  datatype Reply = Issued(id: Id) | Seen(session: Id) | Rotated(session: Id, by_: Id) | Revoked | Consumed(token: Id)
                 | Recovered(token: Id, user: Id) | Refused

  datatype Step = Step(state: State, reply: Reply)

  const MINIMUM_SECRET := 32
  const INVITATION_LIMIT := 72 * 3_600_000_000

  predicate IsSession(s: State, id: Id, workspace: Id, hash: string) {
    id in s.sessions && s.sessions[id].workspace == workspace && s.sessions[id].hash == hash
  }

  predicate IsToken(s: State, id: Id, workspace: Id, hash: string) {
    id in s.tokens && s.tokens[id].workspace == workspace && s.tokens[id].hash == hash
  }

  ghost function FindSession(h: Hash, s: State, workspace: Id, secret: string): (r: Option<Id>)
    ensures r.Some? ==> IsSession(s, r.value, workspace, h(secret))
  {
    if |secret| >= MINIMUM_SECRET && exists id :: IsSession(s, id, workspace, h(secret))
    then var id :| IsSession(s, id, workspace, h(secret)); Some(id)
    else None
  }

  ghost function FindToken(h: Hash, s: State, workspace: Id, secret: string): (r: Option<Id>)
    ensures r.Some? ==> IsToken(s, r.value, workspace, h(secret))
  {
    if |secret| >= MINIMUM_SECRET && exists id :: IsToken(s, id, workspace, h(secret))
    then var id :| IsToken(s, id, workspace, h(secret)); Some(id)
    else None
  }

  function Stay(s: State): Step { Step(s, Refused) }

  // ----- Sessions -----

  predicate SessionHashFree(s: State, hash: string) {
    forall id :: id in s.sessions ==> s.sessions[id].hash != hash
  }

  predicate TokenHashFree(s: State, hash: string) {
    forall id :: id in s.tokens ==> s.tokens[id].hash != hash
  }

  function DoIssue(h: Hash, s: State, w: Id, u: Id, strength: Strength, expiresAt: int, mfaAt: Option<int>,
                   id: Id, secret: string, now: int): Step {
    if expiresAt <= now then Stay(s)
    else if u !in s.users || !s.users[u].active then Stay(s)
    else if s.users[u].mfaRequired && !strength.Mfa? then Stay(s)
    else if strength.Mfa? && mfaAt.None? then Stay(s)
    else if |secret| < MINIMUM_SECRET || id in s.sessions || !SessionHashFree(s, h(secret)) then Stay(s)
    else Step(s.(sessions := s.sessions[id := Session(w, u, h(secret), strength, mfaAt, now, expiresAt, None)]),
              Issued(id))
  }

  /** A session that may act: known, not revoked, not expired, of an active user. */
  predicate Live(s: State, id: Id, now: int) {
    id in s.sessions && s.sessions[id].revokedAt.None? && s.sessions[id].expiresAt > now
    && s.sessions[id].user in s.users && s.users[s.sessions[id].user].active
  }

  ghost function DoAuthenticate(h: Hash, s: State, w: Id, secret: string, now: int): Step {
    var found := FindSession(h, s, w, secret);
    if found.None? || !Live(s, found.value, now) then Stay(s)
    else Step(s.(sessions := s.sessions[found.value := s.sessions[found.value].(lastSeen := now)]), Seen(found.value))
  }

  function DoRevokeSession(s: State, w: Id, id: Id, now: int): Step {
    if id !in s.sessions || s.sessions[id].workspace != w then Stay(s)
    else if s.sessions[id].revokedAt.Some? then Step(s, Revoked)
    else Step(s.(sessions := s.sessions[id := s.sessions[id].(revokedAt := Some(now))]), Revoked)
  }

  /** Rotation authenticates, revokes and issues in one transaction. */
  ghost function DoRotate(h: Hash, s: State, w: Id, secret: string, expiresAt: int, id: Id, newSecret: string,
                          now: int): Step {
    var seen := DoAuthenticate(h, s, w, secret, now);
    if !seen.reply.Seen? then Stay(s)
    else
      var current := seen.state.sessions[seen.reply.session];
      var revoked := DoRevokeSession(seen.state, w, seen.reply.session, now);
      var issued := DoIssue(h, revoked.state, w, current.user, current.strength, expiresAt, current.mfaAt, id,
                            newSecret, now);
      if !issued.reply.Issued? then Stay(s) else Step(issued.state, Rotated(seen.reply.session, id))
  }

  // ----- Tokens -----

  function DoIssueToken(h: Hash, s: State, w: Id, purpose: Purpose, expiresAt: int, authority: Option<string>,
                        user: Option<Id>, id: Id, secret: string, now: int): Step {
    if expiresAt <= now then Stay(s)
    else if purpose.Invitation? && (expiresAt > now + INVITATION_LIMIT || authority.None?) then Stay(s)
    else if purpose.Recovery? && user.None? then Stay(s)
    else if |secret| < MINIMUM_SECRET || id in s.tokens || !TokenHashFree(s, h(secret)) then Stay(s)
    else Step(s.(tokens := s.tokens[id := Token(w, user, purpose, h(secret), authority, expiresAt, None, None)]),
              Issued(id))
  }

  predicate Spendable(t: Token, purpose: Purpose, authority: Option<string>, now: int) {
    && t.purpose == purpose && t.expiresAt > now && t.consumedAt.None? && t.revokedAt.None?
    && (purpose.Invitation? ==> authority.Some? && t.authority == authority)
  }

  ghost function DoConsume(h: Hash, s: State, w: Id, secret: string, purpose: Purpose, authority: Option<string>,
                           now: int): Step {
    var found := FindToken(h, s, w, secret);
    if found.None? || !Spendable(s.tokens[found.value], purpose, authority, now) then Stay(s)
    else Step(s.(tokens := s.tokens[found.value := s.tokens[found.value].(consumedAt := Some(now))]),
              Consumed(found.value))
  }

  function DoRevokeToken(s: State, w: Id, id: Id, now: int): Step {
    if id !in s.tokens || s.tokens[id].workspace != w then Stay(s)
    else if s.tokens[id].revokedAt.Some? then Step(s, Revoked)
    else Step(s.(tokens := s.tokens[id := s.tokens[id].(revokedAt := Some(now))]), Revoked)
  }

  // ----- Recovery -----

  /** The two bulk updates of a recovery. */
  function CutOff(s: State, w: Id, u: Id, now: int): State {
    s.(sessions := map id | id in s.sessions :: CutSession(s.sessions[id], w, u, now),
       tokens := map id | id in s.tokens :: CutToken(s.tokens[id], w, u, now))
  }

  function CutSession(x: Session, w: Id, u: Id, now: int): Session {
    if x.workspace == w && x.user == u && x.revokedAt.None? then x.(revokedAt := Some(now)) else x
  }

  function CutToken(t: Token, w: Id, u: Id, now: int): Token {
    if t.workspace == w && t.user == Some(u) && t.purpose.Recovery? && t.consumedAt.None? && t.revokedAt.None?
    then t.(revokedAt := Some(now)) else t
  }

  ghost function DoRecover(h: Hash, s: State, w: Id, secret: string, now: int): Step {
    var used := DoConsume(h, s, w, secret, Recovery, None, now);
    if !used.reply.Consumed? then Stay(s)
    else
      var user := used.state.tokens[used.reply.token].user;
      if user.None? then Stay(s)
      else Step(CutOff(used.state, w, user.value, now), Recovered(used.reply.token, user.value))
  }

  ghost function Apply(h: Hash, s: State, op: Op, now: int): Step {
    match op
    case IssueSession(w, u, strength, expiresAt, mfaAt, id, secret) =>
      DoIssue(h, s, w, u, strength, expiresAt, mfaAt, id, secret, now)
    case Authenticate(w, secret) => DoAuthenticate(h, s, w, secret, now)
    case RevokeSession(w, id) => DoRevokeSession(s, w, id, now)
    case RotateSession(w, secret, expiresAt, id, newSecret) => DoRotate(h, s, w, secret, expiresAt, id, newSecret, now)
    case IssueToken(w, purpose, expiresAt, authority, user, id, secret) =>
      DoIssueToken(h, s, w, purpose, expiresAt, authority, user, id, secret, now)
    case ConsumeToken(w, secret, purpose, authority) => DoConsume(h, s, w, secret, purpose, authority, now)
    case RevokeToken(w, id) => DoRevokeToken(s, w, id, now)
    case RecoverAccount(w, secret) => DoRecover(h, s, w, secret, now)
  }

  ghost function Run(h: Hash, s: State, calls: seq<(Op, int)>): State
    decreases |calls|
  {
    if calls == [] then s else Run(h, Apply(h, s, calls[0].0, calls[0].1).state, calls[1..])
  }

  ghost function Replies(h: Hash, s: State, calls: seq<(Op, int)>): seq<Reply>
    decreases |calls|
  {
    if calls == [] then []
    else [Apply(h, s, calls[0].0, calls[0].1).reply] + Replies(h, Apply(h, s, calls[0].0, calls[0].1).state, calls[1..])
  }

  // ----- A revoked session is dead, a spent token is spent -----

  predicate Dead(s: State, id: Id) { id in s.sessions && s.sessions[id].revokedAt.Some? }

  predicate Spent(s: State, id: Id) {
    id in s.tokens && (s.tokens[id].consumedAt.Some? || s.tokens[id].revokedAt.Some?)
  }

  predicate UsesSession(r: Reply, id: Id) { (r.Seen? || r.Rotated?) && r.session == id }

  predicate UsesToken(r: Reply, id: Id) { (r.Consumed? || r.Recovered?) && r.token == id }

  ghost predicate SameOwner(s: State, t: State, id: Id) {
    id in s.sessions ==>
      && id in t.sessions && t.sessions[id].user == s.sessions[id].user
      && t.sessions[id].workspace == s.sessions[id].workspace
  }

  /** The owner of a session never changes, no dead session comes back, and what is used
      was alive before the call. */
  lemma SessionsStep(h: Hash, s: State, op: Op, now: int)
    ensures var step := Apply(h, s, op, now);
            && (forall id :: SameOwner(s, step.state, id))
            && (forall id :: Dead(s, id) ==> Dead(step.state, id))
            && (forall id :: UsesSession(step.reply, id) ==> Live(s, id, now))
  {
  }

  /** No spent token comes back; what is used was neither spent nor expired, and is spent. */
  lemma TokensStep(h: Hash, s: State, op: Op, now: int)
    ensures var step := Apply(h, s, op, now);
            && (forall id :: Spent(s, id) ==> Spent(step.state, id))
            && (forall id :: UsesToken(step.reply, id) ==>
                  id in s.tokens && !Spent(s, id) && s.tokens[id].expiresAt > now && Spent(step.state, id))
  {
  }

  function Uses(replies: seq<Reply>, token: Id): nat {
    if replies == [] then 0 else (if UsesToken(replies[0], token) then 1 else 0) + Uses(replies[1..], token)
  }

  /** Over any run a token is consumed at most once, and never once spent. */
  lemma {:induction false} TokenUsedAtMostOnce(h: Hash, s: State, calls: seq<(Op, int)>, token: Id)
    ensures Uses(Replies(h, s, calls), token) <= if Spent(s, token) then 0 else 1
    decreases |calls|
  {
    if calls != [] {
      var step := Apply(h, s, calls[0].0, calls[0].1);
      TokensStep(h, s, calls[0].0, calls[0].1);
      TokenUsedAtMostOnce(h, step.state, calls[1..], token);
      assert Replies(h, s, calls)[1..] == Replies(h, step.state, calls[1..]);
    }
  }

  /** A dead session neither authenticates nor is rotated in any later run. */
  lemma {:induction false} DeadStaysDead(h: Hash, s: State, calls: seq<(Op, int)>, id: Id)
    requires Dead(s, id)
    ensures Dead(Run(h, s, calls), id)
    ensures forall i :: 0 <= i < |Replies(h, s, calls)| ==> !UsesSession(Replies(h, s, calls)[i], id)
    decreases |calls|
  {
    if calls != [] {
      SessionsStep(h, s, calls[0].0, calls[0].1);
      DeadStaysDead(h, Apply(h, s, calls[0].0, calls[0].1).state, calls[1..], id);
    }
  }

  predicate Owns(s: State, id: Id, w: Id, u: Id) {
    id in s.sessions && s.sessions[id].workspace == w && s.sessions[id].user == u
  }

  predicate RecoveryTokenOf(s: State, id: Id, w: Id, u: Id) {
    id in s.tokens && s.tokens[id].workspace == w && s.tokens[id].user == Some(u) && s.tokens[id].purpose.Recovery?
  }

  ghost predicate AllDead(s: State, w: Id, u: Id) {
    forall id :: Owns(s, id, w, u) ==> Dead(s, id)
  }

  /** A recovery kills every session of the user in the workspace and spends every recovery
      token of the user there. */
  lemma RecoveryCutsOff(h: Hash, s: State, w: Id, secret: string, now: int)
    requires Apply(h, s, RecoverAccount(w, secret), now).reply.Recovered?
    ensures var step := Apply(h, s, RecoverAccount(w, secret), now);
            && AllDead(step.state, w, step.reply.user)
            && forall id :: RecoveryTokenOf(s, id, w, step.reply.user) ==> Spent(step.state, id)
  {
  }

  /** After a recovery no earlier session authenticates or is rotated, and no earlier
      recovery token of the user works, in any later run. */
  lemma RecoveryIsLasting(h: Hash, s: State, w: Id, secret: string, now: int, calls: seq<(Op, int)>, session: Id,
                          token: Id)
    requires Apply(h, s, RecoverAccount(w, secret), now).reply.Recovered?
    ensures var step := Apply(h, s, RecoverAccount(w, secret), now);
            var replies := Replies(h, step.state, calls);
            && (Owns(s, session, w, step.reply.user) ==>
                  forall i :: 0 <= i < |replies| ==> !UsesSession(replies[i], session))
            && (RecoveryTokenOf(s, token, w, step.reply.user) ==> Uses(replies, token) == 0)
  {
    var step := Apply(h, s, RecoverAccount(w, secret), now);
    RecoveryCutsOff(h, s, w, secret, now);
    SessionsStep(h, s, RecoverAccount(w, secret), now);
    if Owns(s, session, w, step.reply.user) {
      assert SameOwner(s, step.state, session);
      DeadStaysDead(h, step.state, calls, session);
    }
    TokenUsedAtMostOnce(h, step.state, calls, token);
  }

  predicate OpensFor(op: Op, w: Id, u: Id) { op.IssueSession? && op.workspace == w && op.user == u }

  lemma AllDeadStep(h: Hash, s: State, op: Op, now: int, w: Id, u: Id)
    requires AllDead(s, w, u) && !OpensFor(op, w, u)
    ensures AllDead(Apply(h, s, op, now).state, w, u)
    ensures forall id :: UsesSession(Apply(h, s, op, now).reply, id) ==> !Owns(s, id, w, u)
  {
    var step := Apply(h, s, op, now);
    SessionsStep(h, s, op, now);
    forall id | Owns(step.state, id, w, u) ensures Dead(step.state, id) {
      assert SameOwner(s, step.state, id);
      if id !in s.sessions {
        NewSessionOwner(h, s, op, now, id);
      }
    }
  }

  /** A new session is opened for its user, or takes over from a live one of the same owner. */
  lemma NewSessionOwner(h: Hash, s: State, op: Op, now: int, id: Id)
    requires var t := Apply(h, s, op, now).state; id in t.sessions && id !in s.sessions
    ensures var x := Apply(h, s, op, now).state.sessions[id];
            OpensFor(op, x.workspace, x.user) || exists old_ :: Owns(s, old_, x.workspace, x.user) && Live(s, old_, now)
  {
    if op.RotateSession? {
      var seen := DoAuthenticate(h, s, op.workspace, op.secret, now);
      assert Live(s, seen.reply.session, now)
             && Owns(s, seen.reply.session, op.workspace, s.sessions[seen.reply.session].user);
    }
  }

  /** A session opened after a recovery descends from one issued after it: without a new
      login of the user, no rotation brings a session of the user back. */
  lemma {:induction false} NoSessionWithoutLogin(h: Hash, s: State, calls: seq<(Op, int)>, w: Id, u: Id)
    requires AllDead(s, w, u) && forall i :: 0 <= i < |calls| ==> !OpensFor(calls[i].0, w, u)
    ensures AllDead(Run(h, s, calls), w, u)
    ensures forall i, id :: 0 <= i < |Replies(h, s, calls)| && UsesSession(Replies(h, s, calls)[i], id) ==>
              !Owns(Run(h, s, calls), id, w, u)
    decreases |calls|
  {
    if calls != [] {
      var step := Apply(h, s, calls[0].0, calls[0].1);
      AllDeadStep(h, s, calls[0].0, calls[0].1, w, u);
      NoSessionWithoutLogin(h, step.state, calls[1..], w, u);
      forall id | UsesSession(step.reply, id) ensures !Owns(Run(h, s, calls), id, w, u) {
        SessionsStep(h, s, calls[0].0, calls[0].1);
        assert SameOwner(s, step.state, id);
        OwnersStay(h, step.state, calls[1..], id);
      }
    }
  }

  lemma {:induction false} OwnersStay(h: Hash, s: State, calls: seq<(Op, int)>, id: Id)
    ensures SameOwner(s, Run(h, s, calls), id)
    decreases |calls|
  {
    if calls != [] {
      SessionsStep(h, s, calls[0].0, calls[0].1);
      var t := Apply(h, s, calls[0].0, calls[0].1).state;
      assert SameOwner(s, t, id);
      OwnersStay(h, t, calls[1..], id);
    }
  }

  // ----- The service -----

  ghost predicate UniqueSessionHashes(s: State) {
    forall a, b :: a in s.sessions && b in s.sessions && a != b ==> s.sessions[a].hash != s.sessions[b].hash
  }

  ghost predicate UniqueTokenHashes(s: State) {
    forall a, b :: a in s.tokens && b in s.tokens && a != b ==> s.tokens[a].hash != s.tokens[b].hash
  }

  /** No call stores a hash twice, so a secret names at most one row. */
  lemma SessionHashesStayUnique(h: Hash, s: State, op: Op, now: int)
    requires UniqueSessionHashes(s)
    ensures UniqueSessionHashes(Apply(h, s, op, now).state)
  {
    if op.RotateSession? {
      RotationHashes(h, s, op, now);
    } else if !op.IssueSession? {
      SameSessionHashes(h, s, op, now);
    }
  }

  lemma RotationHashes(h: Hash, s: State, op: Op, now: int)
    requires UniqueSessionHashes(s) && op.RotateSession?
    ensures UniqueSessionHashes(Apply(h, s, op, now).state)
  {
    var seen := DoAuthenticate(h, s, op.workspace, op.secret, now);
    SameSessionHashes(h, s, Authenticate(op.workspace, op.secret), now);
    if seen.reply.Seen? {
      SameSessionHashes(h, seen.state, RevokeSession(op.workspace, seen.reply.session), now);
    }
  }

  lemma SameSessionHashes(h: Hash, s: State, op: Op, now: int)
    requires !op.RotateSession? && !op.IssueSession?
    ensures var t := Apply(h, s, op, now).state;
            && t.sessions.Keys == s.sessions.Keys
            && forall id :: id in s.sessions ==> t.sessions[id].hash == s.sessions[id].hash
  {
  }

  lemma TokenHashesStayUnique(h: Hash, s: State, op: Op, now: int)
    requires UniqueTokenHashes(s)
    ensures UniqueTokenHashes(Apply(h, s, op, now).state)
  {
    if !op.IssueToken? {
      SameTokenHashes(h, s, op, now);
    }
  }

  lemma SameTokenHashes(h: Hash, s: State, op: Op, now: int)
    requires !op.IssueToken?
    ensures var t := Apply(h, s, op, now).state;
            t.tokens.Keys == s.tokens.Keys && forall id :: id in s.tokens ==> t.tokens[id].hash == s.tokens[id].hash
  {
  }

  // ----- What each call achieves -----

  /** Under the unique constraints a secret of sufficient length finds exactly its own row. */
  lemma FoundIff(h: Hash, s: State, w: Id, secret: string, id: Id)
    ensures UniqueSessionHashes(s) ==>
              (FindSession(h, s, w, secret) == Some(id) <==>
               |secret| >= 32 && id in s.sessions && s.sessions[id].workspace == w && s.sessions[id].hash == h(secret))
    ensures UniqueTokenHashes(s) ==>
              (FindToken(h, s, w, secret) == Some(id) <==>
               |secret| >= 32 && id in s.tokens && s.tokens[id].workspace == w && s.tokens[id].hash == h(secret))
  {
    assert IsSession(s, id, w, h(secret)) <==>
           id in s.sessions && s.sessions[id].workspace == w && s.sessions[id].hash == h(secret);
    assert IsToken(s, id, w, h(secret)) <==>
           id in s.tokens && s.tokens[id].workspace == w && s.tokens[id].hash == h(secret);
  }

  predicate ActiveUser(s: State, u: Id) { u in s.users && s.users[u].active }

  /** The session behind a secret, if it may act now. */
  predicate MayAct(h: Hash, s: State, w: Id, secret: string, id: Id, now: int) {
    && |secret| >= 32 && id in s.sessions && s.sessions[id].workspace == w && s.sessions[id].hash == h(secret)
    && s.sessions[id].revokedAt == None && now < s.sessions[id].expiresAt && ActiveUser(s, s.sessions[id].user)
  }

  /** A secret authenticates exactly the session it may act for, which is then marked as
      just seen; any other attempt changes nothing. */
  lemma AuthenticatesIff(h: Hash, s: State, w: Id, secret: string, id: Id, now: int)
    requires UniqueSessionHashes(s)
    ensures var step := Apply(h, s, Authenticate(w, secret), now);
            && (step.reply == Seen(id) <==> MayAct(h, s, w, secret, id, now))
            && (step.reply == Seen(id) ==>
                step.state == s.(sessions := s.sessions[id := s.sessions[id].(lastSeen := now)]))
            && (!step.reply.Seen? ==> step == Step(s, Refused))
  {
    FoundIff(h, s, w, secret, id);
  }

  /** A user may open a session of this strength. */
  predicate MayOpen(s: State, u: Id, strength: Strength, mfaAt: Option<int>) {
    && ActiveUser(s, u)
    && (s.users[u].mfaRequired ==> strength == Mfa)
    && (strength == Mfa ==> mfaAt.Some?)
  }

  predicate FreshSession(h: Hash, s: State, id: Id, secret: string) {
    |secret| >= 32 && id !in s.sessions && forall x :: x in s.sessions ==> s.sessions[x].hash != h(secret)
  }

  lemma SessionIssuedIff(h: Hash, s: State, op: Op, now: int)
    requires op.IssueSession?
    ensures var step := Apply(h, s, op, now);
            && (step.reply == Issued(op.id) <==>
                && now < op.expiresAt && MayOpen(s, op.user, op.strength, op.mfaAt)
                && FreshSession(h, s, op.id, op.newSecret))
            && (step.reply == Issued(op.id) ==>
                step.state == s.(sessions := s.sessions[op.id :=
                  Session(op.workspace, op.user, h(op.newSecret), op.strength, op.mfaAt, now, op.expiresAt, None)]))
            && (step.reply != Issued(op.id) ==> step == Step(s, Refused))
  {
  }

  /** A rotation goes through exactly when the old session may act and its user may open
      another of the same strength; it revokes the old one and passes user, strength and
      second factor on. Otherwise nothing changes at all. */
  lemma RotatedIff(h: Hash, s: State, op: Op, old_: Id, now: int)
    requires op.RotateSession? && UniqueSessionHashes(s)
    ensures var step := Apply(h, s, op, now);
            && (step.reply == Rotated(old_, op.id) <==>
                && MayAct(h, s, op.workspace, op.secret, old_, now) && now < op.expiresAt
                && MayOpen(s, s.sessions[old_].user, s.sessions[old_].strength, s.sessions[old_].mfaAt)
                && FreshSession(h, s, op.id, op.newSecret))
            && (step.reply == Rotated(old_, op.id) ==>
                var x := s.sessions[old_];
                step.state == s.(sessions := s.sessions
                  [old_ := x.(lastSeen := now, revokedAt := Some(now))]
                  [op.id := Session(op.workspace, x.user, h(op.newSecret), x.strength, x.mfaAt, now, op.expiresAt,
                                    None)]))
            && (!step.reply.Rotated? ==> step == Step(s, Refused))
            && (step.reply.Rotated? ==> step.reply.by_ == op.id)
  {
    AuthenticatesIff(h, s, op.workspace, op.secret, old_, now);
    var seen := DoAuthenticate(h, s, op.workspace, op.secret, now);
    if seen.reply.Seen? {
      AuthenticatesIff(h, s, op.workspace, op.secret, seen.reply.session, now);
      var revoked := DoRevokeSession(seen.state, op.workspace, seen.reply.session, now).state;
      SameFreshness(h, s, revoked, op.id, op.newSecret);
    }
  }

  lemma SameFreshness(h: Hash, s: State, t: State, id: Id, secret: string)
    requires t.sessions.Keys == s.sessions.Keys
    requires forall x :: x in s.sessions ==> t.sessions[x].hash == s.sessions[x].hash
    ensures FreshSession(h, t, id, secret) <==> FreshSession(h, s, id, secret)
    ensures SessionHashFree(t, h(secret)) <==> SessionHashFree(s, h(secret))
  {
  }

  /** Revoking is for sessions and tokens of the workspace, and keeps the first time. */
  lemma RevokedOnce(h: Hash, s: State, w: Id, id: Id, now: int)
    ensures var step := Apply(h, s, RevokeSession(w, id), now);
            && (step.reply == Revoked <==> id in s.sessions && s.sessions[id].workspace == w)
            && (step.reply == Revoked ==>
                step.state == if s.sessions[id].revokedAt.Some? then s
                              else s.(sessions := s.sessions[id := s.sessions[id].(revokedAt := Some(now))]))
            && (step.reply != Revoked ==> step == Step(s, Refused))
    ensures var step := Apply(h, s, RevokeToken(w, id), now);
            && (step.reply == Revoked <==> id in s.tokens && s.tokens[id].workspace == w)
            && (step.reply == Revoked ==>
                step.state == if s.tokens[id].revokedAt.Some? then s
                              else s.(tokens := s.tokens[id := s.tokens[id].(revokedAt := Some(now))]))
            && (step.reply != Revoked ==> step == Step(s, Refused))
  {
  }

  predicate FreshToken(h: Hash, s: State, id: Id, secret: string) {
    |secret| >= 32 && id !in s.tokens && forall x :: x in s.tokens ==> s.tokens[x].hash != h(secret)
  }

  /** A token is issued for a time to come: an invitation for at most three days and under
      an authority, a recovery for a known subject. */
  lemma TokenIssuedIff(h: Hash, s: State, op: Op, now: int)
    requires op.IssueToken?
    ensures var step := Apply(h, s, op, now);
            && (step.reply == Issued(op.id) <==>
                && now < op.expiresAt && FreshToken(h, s, op.id, op.newSecret)
                && (op.purpose == Invitation ==> op.expiresAt - now <= 259_200_000_000 && op.authority.Some?)
                && (op.purpose == Recovery ==> op.subject.Some?))
            && (step.reply == Issued(op.id) ==>
                step.state == s.(tokens := s.tokens[op.id :=
                  Token(op.workspace, op.subject, op.purpose, h(op.newSecret), op.authority, op.expiresAt, None,
                        None)]))
            && (step.reply != Issued(op.id) ==> step == Step(s, Refused))
  {
  }

  /** The token behind a secret, if it can be spent for this purpose now. */
  predicate MaySpend(h: Hash, s: State, w: Id, secret: string, purpose: Purpose, authority: Option<string>, id: Id,
                     now: int) {
    && |secret| >= 32 && id in s.tokens && s.tokens[id].workspace == w && s.tokens[id].hash == h(secret)
    && s.tokens[id].purpose == purpose && now < s.tokens[id].expiresAt
    && s.tokens[id].consumedAt == None && s.tokens[id].revokedAt == None
    && (purpose == Invitation ==> authority.Some? && s.tokens[id].authority == authority)
  }

  /** A token is consumed exactly for its own purpose, in time, once, and an invitation only
      by the authority it names. */
  lemma ConsumedIff(h: Hash, s: State, w: Id, secret: string, purpose: Purpose, authority: Option<string>, id: Id,
                    now: int)
    requires UniqueTokenHashes(s)
    ensures var step := Apply(h, s, ConsumeToken(w, secret, purpose, authority), now);
            && (step.reply == Consumed(id) <==> MaySpend(h, s, w, secret, purpose, authority, id, now))
            && (step.reply == Consumed(id) ==>
                step.state == s.(tokens := s.tokens[id := s.tokens[id].(consumedAt := Some(now))]))
            && (!step.reply.Consumed? ==> step == Step(s, Refused))
  {
    FoundIff(h, s, w, secret, id);
  }

  /** A recovery goes through exactly with a recovery token that can be spent and names its
      user. It revokes what it must and nothing else: the user's open sessions and unspent
      recovery tokens in the workspace. */
  lemma RecoveredIff(h: Hash, s: State, w: Id, secret: string, id: Id, user: Id, now: int)
    requires UniqueTokenHashes(s)
    ensures var step := Apply(h, s, RecoverAccount(w, secret), now);
            && (step.reply == Recovered(id, user) <==>
                MaySpend(h, s, w, secret, Recovery, None, id, now) && s.tokens[id].user == Some(user))
            && (!step.reply.Recovered? ==> step == Step(s, Refused))
            && (step.reply == Recovered(id, user) ==>
                && step.state.users == s.users
                && step.state.sessions == (map x | x in s.sessions ::
                     if s.sessions[x].workspace == w && s.sessions[x].user == user && s.sessions[x].revokedAt == None
                     then s.sessions[x].(revokedAt := Some(now)) else s.sessions[x])
                && step.state.tokens == (map x | x in s.tokens ::
                     if x == id then s.tokens[x].(consumedAt := Some(now))
                     else if RecoveryTokenOf(s, x, w, user) && !Spent(s, x) then s.tokens[x].(revokedAt := Some(now))
                     else s.tokens[x]))
  {
    ConsumedIff(h, s, w, secret, Recovery, None, id, now);
  }

  /** A user of whom a second factor is required never has a session without one. */
  ghost predicate SecondFactorKept(s: State) {
    forall id :: id in s.sessions ==>
      && (s.sessions[id].strength == Mfa ==> s.sessions[id].mfaAt.Some?)
      && (s.sessions[id].user in s.users && s.users[s.sessions[id].user].mfaRequired ==> s.sessions[id].strength == Mfa)
  }

  lemma SecondFactorStep(h: Hash, s: State, op: Op, now: int)
    requires SecondFactorKept(s)
    ensures SecondFactorKept(Apply(h, s, op, now).state)
  {
    if op.RotateSession? {
      SecondFactorRotated(h, s, op, now);
    }
  }

  lemma SecondFactorRotated(h: Hash, s: State, op: Op, now: int)
    requires SecondFactorKept(s) && op.RotateSession?
    ensures SecondFactorKept(Apply(h, s, op, now).state)
  {
    var seen := DoAuthenticate(h, s, op.workspace, op.secret, now);
    assert SecondFactorKept(seen.state);
    if seen.reply.Seen? {
      assert SecondFactorKept(DoRevokeSession(seen.state, op.workspace, seen.reply.session, now).state);
    }
  }

  /** Whatever is issued, rotated, revoked or recovered. */
  lemma {:induction false} NoSessionWithoutSecondFactor(h: Hash, s: State, calls: seq<(Op, int)>)
    requires SecondFactorKept(s)
    ensures SecondFactorKept(Run(h, s, calls))
    decreases |calls|
  {
    if calls != [] {
      SecondFactorStep(h, s, calls[0].0, calls[0].1);
      NoSessionWithoutSecondFactor(h, Apply(h, s, calls[0].0, calls[0].1).state, calls[1..]);
    }
  }

  /** A run is the calls one after another, with their replies. */
  lemma {:induction false} RunsCompose(h: Hash, s: State, a: seq<(Op, int)>, b: seq<(Op, int)>)
    ensures Run(h, s, a + b) == Run(h, Run(h, s, a), b)
    ensures Replies(h, s, a + b) == Replies(h, s, a) + Replies(h, Run(h, s, a), b)
    decreases |a|
  {
    if a == [] {
      assert a + b == b;
    } else {
      var next := Apply(h, s, a[0].0, a[0].1).state;
      RunsCompose(h, next, a[1..], b);
      RunCall(h, s, a);
      RunCall(h, s, a + b);
      assert (a + b)[1..] == a[1..] + b;
    }
  }

  lemma RunCall(h: Hash, s: State, calls: seq<(Op, int)>)
    requires calls != []
    ensures var step := Apply(h, s, calls[0].0, calls[0].1);
            && Run(h, s, calls) == Run(h, step.state, calls[1..])
            && Replies(h, s, calls) == [step.reply] + Replies(h, step.state, calls[1..])
    ensures Run(h, s, []) == s && Replies(h, s, []) == []
  {
  }

  lemma {:induction false} UsesAddUp(replies: seq<Reply>, token: Id, i: nat, j: nat)
    requires i <= j < |replies| && UsesToken(replies[i], token) && UsesToken(replies[j], token)
    ensures Uses(replies, token) >= if i < j then 2 else 1
  {
    if i > 0 {
      UsesAddUp(replies[1..], token, i - 1, j - 1);
    } else if j > 0 {
      UsesAddUp(replies[1..], token, j - 1, j - 1);
    }
  }

  /** No two replies of a run use the same token, and none uses one that was spent before. */
  lemma NoTokenTwice(h: Hash, s: State, calls: seq<(Op, int)>, token: Id, i: nat, j: nat)
    requires i <= j < |Replies(h, s, calls)|
    requires UsesToken(Replies(h, s, calls)[i], token) && UsesToken(Replies(h, s, calls)[j], token)
    ensures i == j && !Spent(s, token)
  {
    TokenUsedAtMostOnce(h, s, calls, token);
    UsesAddUp(Replies(h, s, calls), token, i, j);
  }

  class LifecycleService {
    const h: Hash
    const users: map<Id, User>
    var sessions: map<Id, Session>
    var tokens: map<Id, Token>

    ghost function View(): State
      reads this
    {
      State(users, sessions, tokens)
    }

    constructor (h: Hash, users: map<Id, User>)
      ensures this.h == h && View() == State(users, map[], map[]) && Consistent()
    {
      this.h, this.users := h, users;
      sessions, tokens := map[], map[];
    }

    /** The unique constraints on the hash columns. */
    ghost predicate Consistent()
      reads this
    {
      UniqueSessionHashes(View()) && UniqueTokenHashes(View())
    }

    method LookUpSession(workspace: Id, secret: string) returns (found: Option<Id>)
      requires Consistent()
      ensures found == FindSession(h, View(), workspace, secret)
    {
      if |secret| < MINIMUM_SECRET {
        return None;
      }
      var todo := sessions.Keys;
      while todo != {}
        invariant todo <= sessions.Keys
        invariant forall id :: id in sessions && id !in todo ==> !IsSession(View(), id, workspace, h(secret))
        decreases |todo|
      {
        var id :| id in todo;
        if sessions[id].workspace == workspace && sessions[id].hash == h(secret) {
          assert IsSession(View(), id, workspace, h(secret));
          return Some(id);
        }
        todo := todo - {id};
      }
      return None;
    }

    method LookUpToken(workspace: Id, secret: string) returns (found: Option<Id>)
      requires Consistent()
      ensures found == FindToken(h, View(), workspace, secret)
    {
      if |secret| < MINIMUM_SECRET {
        return None;
      }
      var todo := tokens.Keys;
      while todo != {}
        invariant todo <= tokens.Keys
        invariant forall id :: id in tokens && id !in todo ==> !IsToken(View(), id, workspace, h(secret))
        decreases |todo|
      {
        var id :| id in todo;
        if tokens[id].workspace == workspace && tokens[id].hash == h(secret) {
          assert IsToken(View(), id, workspace, h(secret));
          return Some(id);
        }
        todo := todo - {id};
      }
      return None;
    }

    method Open(w: Id, u: Id, strength: Strength, expiresAt: int, mfaAt: Option<int>, id: Id, secret: string,
                now: int) returns (reply: Reply)
      modifies this`sessions
      ensures Step(View(), reply) == DoIssue(h, old(View()), w, u, strength, expiresAt, mfaAt, id, secret, now)
      ensures old(Consistent()) ==> Consistent()
    {
      if expiresAt <= now || u !in users || !users[u].active {
        return Refused;
      }
      if users[u].mfaRequired && !strength.Mfa? {
        return Refused;
      }
      if strength.Mfa? && mfaAt.None? {
        return Refused;
      }
      if |secret| < MINIMUM_SECRET || id in sessions || exists x :: x in sessions && sessions[x].hash == h(secret) {
        return Refused;
      }
      sessions := sessions[id := Session(w, u, h(secret), strength, mfaAt, now, expiresAt, None)];
      return Issued(id);
    }

    method AuthenticateSession(w: Id, secret: string, now: int) returns (reply: Reply)
      requires Consistent()
      modifies this`sessions
      ensures Step(View(), reply) == DoAuthenticate(h, old(View()), w, secret, now)
      ensures Consistent()
    {
      var found := LookUpSession(w, secret);
      if found.None? {
        return Refused;
      }
      var x := sessions[found.value];
      if x.revokedAt.Some? || x.expiresAt <= now {
        return Refused;
      }
      if x.user !in users || !users[x.user].active {
        return Refused;
      }
      sessions := sessions[found.value := x.(lastSeen := now)];
      return Seen(found.value);
    }

    method Revoke(w: Id, id: Id, now: int) returns (reply: Reply)
      modifies this`sessions
      ensures Step(View(), reply) == DoRevokeSession(old(View()), w, id, now)
      ensures old(Consistent()) ==> Consistent()
    {
      if id !in sessions || sessions[id].workspace != w {
        return Refused;
      }
      if sessions[id].revokedAt.None? {
        sessions := sessions[id := sessions[id].(revokedAt := Some(now))];
      }
      return Revoked;
    }

    /** A refused step rolls the whole rotation back. */
    method Rotate(w: Id, secret: string, expiresAt: int, id: Id, newSecret: string, now: int) returns (reply: Reply)
      requires Consistent()
      modifies this`sessions
      ensures Step(View(), reply) == DoRotate(h, old(View()), w, secret, expiresAt, id, newSecret, now)
      ensures Consistent()
    {
      SessionHashesStayUnique(h, View(), RotateSession(w, secret, expiresAt, id, newSecret), now);
      TokenHashesStayUnique(h, View(), RotateSession(w, secret, expiresAt, id, newSecret), now);
      var before := sessions;
      var seen := AuthenticateSession(w, secret, now);
      if !seen.Seen? {
        sessions := before;
        return Refused;
      }
      var current := sessions[seen.session];
      var revoked := Revoke(w, seen.session, now);
      var issued := Open(w, current.user, current.strength, expiresAt, current.mfaAt, id, newSecret, now);
      if !issued.Issued? {
        sessions := before;
        return Refused;
      }
      return Rotated(seen.session, id);
    }

    method Consume(w: Id, secret: string, purpose: Purpose, authority: Option<string>, now: int) returns (reply: Reply)
      requires Consistent()
      modifies this`tokens
      ensures Step(View(), reply) == DoConsume(h, old(View()), w, secret, purpose, authority, now)
      ensures Consistent()
    {
      SessionHashesStayUnique(h, View(), ConsumeToken(w, secret, purpose, authority), now);
      TokenHashesStayUnique(h, View(), ConsumeToken(w, secret, purpose, authority), now);
      var found := LookUpToken(w, secret);
      if found.None? {
        return Refused;
      }
      var t := tokens[found.value];
      if t.purpose != purpose || t.expiresAt <= now || t.consumedAt.Some? || t.revokedAt.Some? {
        return Refused;
      }
      if purpose.Invitation? && (authority.None? || t.authority != authority) {
        return Refused;
      }
      tokens := tokens[found.value := t.(consumedAt := Some(now))];
      return Consumed(found.value);
    }

    /** Consumes the token, then revokes in bulk. */
    method Recover(w: Id, secret: string, now: int) returns (reply: Reply)
      requires Consistent()
      modifies this`sessions, this`tokens
      ensures Step(View(), reply) == DoRecover(h, old(View()), w, secret, now)
      ensures Consistent()
    {
      SessionHashesStayUnique(h, View(), RecoverAccount(w, secret), now);
      TokenHashesStayUnique(h, View(), RecoverAccount(w, secret), now);
      var before := tokens;
      var used := Consume(w, secret, Recovery, None, now);
      if !used.Consumed? {
        return Refused;
      }
      var user := tokens[used.token].user;
      if user.None? {
        tokens := before;
        return Refused;
      }
      sessions := map id | id in sessions :: CutSession(sessions[id], w, user.value, now);
      tokens := map id | id in tokens :: CutToken(tokens[id], w, user.value, now);
      return Recovered(used.token, user.value);
    }
  }
}
