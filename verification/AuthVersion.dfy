/** The account authentication version over the refresh families: password change, access
    verification, login and the refresh handler, each split where another request may run
    between its reads and its writes. */
module AuthVersion {
  import opened Basics
  import R = RefreshSession

  const MAX_INT64: int := 0x7FFF_FFFF_FFFF_FFFF

  /** Password hashing is taken as injective: `password` stands for its hash. */
  datatype User = User(password: int, version: int)

  datatype ChangeResult = Changed | Missing | VersionUnavailable | CurrentPasswordInvalid | PasswordUnchanged

  /** The transaction of a password change, on the row it locks. */
  function Change(users: map<int, User>, user: int, observed: User, submitted: int, replacement: int): (map<int, User>, ChangeResult) {
    if user !in users then (users, Missing)
    else
      var latest := users[user];
      if latest.version <= 0 || latest.version == MAX_INT64 then (users, VersionUnavailable)
      else if latest != observed && submitted != latest.password then (users, CurrentPasswordInvalid)
      else if submitted == replacement then (users, PasswordUnchanged)
      else (users[user := User(replacement, latest.version + 1)], Changed)
  }

  /** The user table. */
  class Accounts {
    var users: map<int, User>

    constructor ()
      ensures users == map[]
    {
      users := map[];
    }

    method ChangePassword(user: int, observed: User, submitted: int, replacement: int) returns (result: ChangeResult)
      modifies this
      ensures (users, result) == Change(old(users), user, observed, submitted, replacement)
      ensures result.Changed? <==>
        && user in old(users) && old(users)[user].version > 0 && old(users)[user].version != MAX_INT64
        && (old(users)[user] == observed || submitted == old(users)[user].password)
        && submitted != replacement
      ensures users == if result.Changed? then old(users)[user := User(replacement, old(users)[user].version + 1)] else old(users)
    {
      if user !in users {
        return Missing;
      }
      var latest := users[user];
      if latest.version <= 0 || latest.version == MAX_INT64 {
        return VersionUnavailable;
      }
      if latest.version != observed.version || latest.password != observed.password {
        if submitted != latest.password {
          return CurrentPasswordInvalid;
        }
      }
      if submitted == replacement {
        return PasswordUnchanged;
      }
      users := users[user := User(replacement, latest.version + 1)];
      result := Changed;
    }

    /** The refresh handler with nothing running in between: it answers with a pair only at
        the account's version, and otherwise ends the family it has just rotated. */
    method Refresh(tokens: R.Manager, token: R.Token, request: Option<int>, newSecret: int, now: int, clock: int) returns (response: Option<R.Pair>)
      modifies tokens.store
      ensures users == old(users)
      ensures var (t, answer) := R.RotateRefresh(old(tokens.store.View()), token, request, newSecret, now, tokens.idle, clock);
        if !answer.Issued? || answer.pair.user !in users then
          tokens.store.View() == t && response == None
        else if answer.pair.version != users[answer.pair.user].version then
          tokens.store.View() == R.RevokeScript(t, answer.pair.refresh.sid, R.Digest(answer.pair.refresh.secret), clock).0 && response == None
        else tokens.store.View() == t && response == Some(answer.pair)
    {
      var answer := tokens.Rotate(token, request, newSecret, now, clock);
      if !answer.Issued? || answer.pair.user !in users {
        return None;
      }
      if answer.pair.version != users[answer.pair.user].version {
        var _ := tokens.Revoke(answer.pair.refresh, clock);
        return None;
      }
      response := Some(answer.pair);
    }
  }

  datatype Claims = Claims(user: int, version: int)

  /** The versioned verifier: the claimed version must be the account's current one. */
  function VerifyAccess(users: map<int, User>, claims: Claims): bool {
    claims.user != 0 && claims.user in users && users[claims.user].version > 0 && claims.version == users[claims.user].version
  }

  // ---------------------------------------------------------------------------
  // Requests in flight
  // ---------------------------------------------------------------------------

  /** How far a request has come. */
  datatype Request =
    | LoggingIn(user: int, version: int, password: int)
    | Changing(user: int, observed: User, submitted: int, replacement: int)
    | Rotated(pair: R.Pair)
    | Revoking(token: R.Token)

  datatype State = State(world: R.World, users: map<int, User>, requests: map<int, Request>)

  datatype Output = Silent | Accepted(claims: Claims) | LoggedIn(pair: R.Pair) | Refreshed(pair: R.Pair)

  datatype Event =
    | Register(user: int, password: int)
    | CheckLogin(id: int, user: int, password: int)
    | IssueLogin(id: int, sid: int, secret: int, now: int, idle: int, absoluteTtl: int, clock: int)
    | ObservePassword(id: int, user: int, submitted: int, replacement: int)
    | CommitPassword(id: int)
    | Present(id: int, token: R.Token, request: Option<int>, newSecret: int, now: int, idle: int, clock: int)
    | CompareVersion(id: int, readOk: bool)
    | RevokeStale(id: int, clock: int)
    | Logout(token: R.Token, clock: int)
    | Verify(claims: Claims)

  /** The store event behind a step, when it has one. */
  function StoreEvent(s: State, e: Event): Option<R.Event> {
    match e
    case IssueLogin(id, sid, secret, now, idle, absoluteTtl, clock) =>
      if id in s.requests && s.requests[id].LoggingIn? && s.requests[id].user >= 0
      then Some(R.Issue(sid, secret, s.requests[id].user, s.requests[id].version, now, idle, absoluteTtl, clock)) else None
    case Present(_, token, request, newSecret, now, idle, clock) => Some(R.Rotate(token, request, newSecret, now, idle, clock))
    case RevokeStale(id, clock) =>
      if id in s.requests && s.requests[id].Revoking? then Some(R.Revoke(s.requests[id].token, clock)) else None
    case Logout(token, clock) => Some(R.Revoke(token, clock))
    case _ => None
  }

  function StepUsers(s: State, e: Event): map<int, User> {
    match e
    case Register(user, password) => if user in s.users || user <= 0 then s.users else s.users[user := User(password, 1)]
    case CommitPassword(id) =>
      if id in s.requests && s.requests[id].Changing? then
        var r := s.requests[id];
        Change(s.users, r.user, r.observed, r.submitted, r.replacement).0
      else s.users
    case _ => s.users
  }

  function StepRequests(s: State, e: Event): map<int, Request> {
    match e
    case CheckLogin(id, user, password) =>
      if user in s.users && s.users[user].password == password then s.requests[id := LoggingIn(user, s.users[user].version, password)] else s.requests
    case ObservePassword(id, user, submitted, replacement) =>
      if user in s.users && s.users[user].version > 0 && s.users[user].password == submitted && submitted != replacement
      then s.requests[id := Changing(user, s.users[user], submitted, replacement)] else s.requests
    case Present(id, token, request, newSecret, now, idle, clock) =>
      var answer := R.RotateRefresh(s.world.store, token, request, newSecret, now, idle, clock).1;
      if answer.Issued? then s.requests[id := Rotated(answer.pair)] else s.requests
    case CompareVersion(id, readOk) =>
      if id in s.requests && s.requests[id].Rotated? then
        var pair := s.requests[id].pair;
        if readOk && pair.user in s.users && pair.version != s.users[pair.user].version then s.requests[id := Revoking(pair.refresh)]
        else s.requests - {id}
      else s.requests
    case IssueLogin(id, _, _, _, _, _, _) => s.requests - {id}
    case CommitPassword(id) => s.requests - {id}
    case RevokeStale(id, _) => s.requests - {id}
    case _ => s.requests
  }

  function Respond(s: State, e: Event): Output {
    match e
    case Verify(claims) => if VerifyAccess(s.users, claims) then Accepted(claims) else Silent
    case CompareVersion(id, readOk) =>
      if readOk && id in s.requests && s.requests[id].Rotated?
         && s.requests[id].pair.user in s.users && s.requests[id].pair.version == s.users[s.requests[id].pair.user].version
      then Refreshed(s.requests[id].pair) else Silent
    case IssueLogin(_, _, _, _, _, _, _) =>
      var issue := StoreEvent(s, e);
      if issue.Some? && R.Perform(s.world.store, issue.value).1.Issued? then LoggedIn(R.Perform(s.world.store, issue.value).1.pair) else Silent
    case _ => Silent
  }

  function Step(s: State, e: Event): State {
    var inner := StoreEvent(s, e);
    State(if inner.Some? then R.Step(s.world, inner.value) else s.world, StepUsers(s, e), StepRequests(s, e))
  }

  ghost predicate Legal(s: State, e: Event) {
    StoreEvent(s, e).Some? ==> R.Legal(s.world, StoreEvent(s, e).value)
  }

  function Run(s: State, es: seq<Event>): State
    decreases |es|
  {
    if es == [] then s else Run(Step(s, es[0]), es[1..])
  }

  ghost predicate LegalRun(s: State, es: seq<Event>)
    decreases |es|
  {
    es != [] ==> Legal(s, es[0]) && LegalRun(Step(s, es[0]), es[1..])
  }

  // ---------------------------------------------------------------------------
  // What every step keeps
  // ---------------------------------------------------------------------------

  ghost predicate UsersOk(users: map<int, User>) {
    forall u :: u in users ==> u > 0 && 1 <= users[u].version <= MAX_INT64
  }

  /** A token's secret belongs to the chain of its family. */
  ghost predicate Member(w: R.World, token: R.Token) {
    token.sid in w.families && token.secret in w.families[token.sid].chain
  }

  /** A pair in flight carries its family's own user and version. */
  ghost predicate RequestOk(s: State, r: Request) {
    match r
    case LoggingIn(user, version, password) =>
      && user in s.users && 1 <= version <= s.users[user].version
      && (version == s.users[user].version ==> s.users[user].password == password)
    case Changing(user, observed, submitted, replacement) =>
      && user in s.users && 1 <= observed.version <= s.users[user].version
      && observed.password == submitted && submitted != replacement
    case Rotated(pair) =>
      && Member(s.world, pair.refresh)
      && s.world.families[pair.refresh.sid].user == pair.user
      && s.world.families[pair.refresh.sid].version == pair.version
    case Revoking(token) => Member(s.world, token)
  }

  /** No family and no request is ahead of its account. */
  ghost predicate FamilyBehind(s: State, f: R.Family) {
    f.user in s.users && f.version <= s.users[f.user].version
  }

  ghost predicate Inv(s: State) {
    && R.Inv(s.world)
    && UsersOk(s.users)
    && (forall sid :: sid in s.world.families ==> FamilyBehind(s, s.world.families[sid]))
    && (forall id :: id in s.requests ==> RequestOk(s, s.requests[id]))
  }

  lemma StartInv(clock: int)
    ensures Inv(State(R.Start(clock), map[], map[]))
  { }

  /** A row changes only by a greater version. */
  ghost predicate VersionsGrow(users: map<int, User>, users': map<int, User>) {
    forall u :: u in users ==> u in users' && (users'[u] == users[u] || users[u].version < users'[u].version)
  }

  /** A password change raises the version by exactly one and never past the largest int64;
      without a change the row is as it was. */
  lemma ChangeRaisesVersion(users: map<int, User>, user: int, observed: User, submitted: int, replacement: int)
    requires UsersOk(users)
    ensures var (users', result) := Change(users, user, observed, submitted, replacement);
      && UsersOk(users') && VersionsGrow(users, users')
      && (result.Changed? <==> users' != users)
      && (result.Changed? ==> user in users && users' == users[user := User(replacement, users[user].version + 1)] && users[user].version < MAX_INT64)
      && (user in users && users[user] == observed ==>
            (result.Changed? <==> users[user].version < MAX_INT64 && submitted != replacement))
  { }

  /** When each answer is given. */
  lemma ChangeOutcome(users: map<int, User>, user: int, observed: User, submitted: int, replacement: int)
    ensures var (users', result) := Change(users, user, observed, submitted, replacement);
      && (result.Missing? <==> user !in users)
      && (result.VersionUnavailable? <==> user in users && (users[user].version <= 0 || users[user].version == MAX_INT64))
      && (user in users && users[user].version > 0 && users[user].version != MAX_INT64 ==>
            && (result.CurrentPasswordInvalid? <==> users[user] != observed && submitted != users[user].password)
            && (result.PasswordUnchanged? <==> (users[user] == observed || submitted == users[user].password) && submitted == replacement)
            && (result.Changed? <==> (users[user] == observed || submitted == users[user].password) && submitted != replacement))
      && (!result.Changed? ==> users' == users)
  { }

  /** How one step moves everything the invariant speaks of. */
  lemma StepMoves(s: State, e: Event)
    requires Inv(s) && Legal(s, e)
    ensures var s' := Step(s, e);
      R.Inv(s'.world) && R.AllGrown(s.world, s'.world) && UsersOk(s'.users) && VersionsGrow(s.users, s'.users)
  {
    if StoreEvent(s, e).Some? {
      R.StepKeeps(s.world, StoreEvent(s, e).value);
      R.StepGrows(s.world, StoreEvent(s, e).value);
    }
    if e.CommitPassword? && e.id in s.requests && s.requests[e.id].Changing? {
      var r := s.requests[e.id];
      ChangeRaisesVersion(s.users, r.user, r.observed, r.submitted, r.replacement);
    }
  }

  lemma RequestFrame(s: State, s': State, r: Request)
    requires RequestOk(s, r) && R.AllGrown(s.world, s'.world) && VersionsGrow(s.users, s'.users)
    ensures RequestOk(s', r)
  { }

  lemma NewRequestOk(s: State, e: Event, id: int)
    requires Inv(s) && Legal(s, e)
    requires id in Step(s, e).requests && (id !in s.requests || Step(s, e).requests[id] != s.requests[id])
    ensures RequestOk(Step(s, e), Step(s, e).requests[id])
  {
    StepMoves(s, e);
    if e.Present? {
      R.GrantIsLast(s.world, StoreEvent(s, e).value);
    } else if e.CompareVersion? {
      RequestFrame(s, Step(s, e), s.requests[id]);
    }
  }

  lemma NewFamilyBehind(s: State, e: Event, sid: int)
    requires Inv(s) && Legal(s, e) && sid in Step(s, e).world.families
    ensures FamilyBehind(Step(s, e), Step(s, e).world.families[sid])
  {
    StepMoves(s, e);
    if sid in s.world.families {
      assert R.Grown(s.world.families[sid], Step(s, e).world.families[sid]);
    } else if e.IssueLogin? {
      assert RequestOk(s, s.requests[e.id]);
    }
  }

  lemma StepKeeps(s: State, e: Event)
    requires Inv(s) && Legal(s, e)
    ensures Inv(Step(s, e))
  {
    StepMoves(s, e);
    var s' := Step(s, e);
    forall sid | sid in s'.world.families ensures FamilyBehind(s', s'.world.families[sid]) {
      NewFamilyBehind(s, e, sid);
    }
    forall id | id in s'.requests ensures RequestOk(s', s'.requests[id]) {
      if id in s.requests && s'.requests[id] == s.requests[id] {
        RequestFrame(s, s', s.requests[id]);
      } else {
        NewRequestOk(s, e, id);
      }
    }
  }

  lemma GrowthAdds(s: State, t: State, u: State)
    requires VersionsGrow(s.users, t.users) && VersionsGrow(t.users, u.users)
    requires R.AllGrown(s.world, t.world) && R.AllGrown(t.world, u.world)
    ensures VersionsGrow(s.users, u.users) && R.AllGrown(s.world, u.world)
  {
    R.GrownAdds(s.world, t.world, u.world);
  }

  lemma {:induction false} RunKeeps(s: State, es: seq<Event>)
    requires Inv(s) && LegalRun(s, es)
    ensures Inv(Run(s, es)) && VersionsGrow(s.users, Run(s, es).users)
    ensures R.AllGrown(s.world, Run(s, es).world)
    decreases |es|
  {
    if es != [] {
      StepMoves(s, es[0]);
      StepKeeps(s, es[0]);
      RunKeeps(Step(s, es[0]), es[1..]);
      GrowthAdds(s, Step(s, es[0]), Run(s, es));
    }
  }

  /** How often a run changed the password of an account. */
  function Changes(s: State, es: seq<Event>, user: int): nat
    decreases |es|
  {
    if es == [] then 0
    else
      var one := if user in s.users && StepUsers(s, es[0]) != s.users && es[0].CommitPassword? && s.requests[es[0].id].user == user then 1 else 0;
      one + Changes(Step(s, es[0]), es[1..], user)
  }

  lemma OneChangeCounts(s: State, e: Event, user: int)
    requires Inv(s) && Legal(s, e) && user in s.users
    ensures user in Step(s, e).users
    ensures Step(s, e).users[user].version == s.users[user].version +
      (if StepUsers(s, e) != s.users && e.CommitPassword? && s.requests[e.id].user == user then 1 else 0)
  { }

  /** An account's version counts its password changes, from one on. */
  lemma {:induction false} VersionCounts(s: State, es: seq<Event>, user: int)
    requires Inv(s) && LegalRun(s, es) && user in Run(s, es).users
    ensures Run(s, es).users[user].version == (if user in s.users then s.users[user].version else 1) + Changes(s, es, user)
    decreases |es|
  {
    if es != [] {
      StepKeeps(s, es[0]);
      if user in s.users {
        OneChangeCounts(s, es[0], user);
      }
      VersionCounts(Step(s, es[0]), es[1..], user);
    }
  }

  // ---------------------------------------------------------------------------
  // Only the present password changes a password
  // ---------------------------------------------------------------------------

  /** Whatever ran since a change was requested, it goes through if and only if the password it
      submitted is the one stored now and a version is left. */
  lemma {:induction false} ChangeNeedsPassword(s: State, es: seq<Event>, id: int)
    requires Inv(s) && LegalRun(s, es)
    requires var t := Run(s, es); id in t.requests && t.requests[id].Changing?
    ensures var t := Run(s, es); var r := t.requests[id];
      && r.user in t.users && r.submitted != r.replacement
      && Step(t, CommitPassword(id)).users ==
           if t.users[r.user].password == r.submitted && t.users[r.user].version < MAX_INT64
           then t.users[r.user := User(r.replacement, t.users[r.user].version + 1)] else t.users
  {
    RunKeeps(s, es);
    assert RequestOk(Run(s, es), Run(s, es).requests[id]);
  }

  /** Of two changes that submitted the same password, the later one fails after the earlier one
      went through, unless the password was changed back in between. */
  lemma {:induction false} OneChangeWins(s: State, first: int, es: seq<Event>, second: int)
    requires Inv(s) && first in s.requests && s.requests[first].Changing?
    requires Step(s, CommitPassword(first)).users != s.users
    requires LegalRun(Step(s, CommitPassword(first)), es)
    requires var t := Run(Step(s, CommitPassword(first)), es);
      && second in t.requests && t.requests[second].Changing?
      && t.requests[second].user == s.requests[first].user && t.requests[second].submitted == s.requests[first].submitted
    ensures var s' := Step(s, CommitPassword(first)); var t := Run(s', es); var user := s.requests[first].user;
      && user in s.users && user in s'.users && user in t.users
      && s.users[user].password == s.requests[first].submitted
      && s'.users[user].password != s.requests[first].submitted
      && (Step(t, CommitPassword(second)).users != t.users ==>
            t.users[user].password == s.requests[first].submitted && t.users[user] != s'.users[user])
  {
    var s' := Step(s, CommitPassword(first));
    ChangeNeedsPassword(s, [], first);
    StepKeeps(s, CommitPassword(first));
    ChangeNeedsPassword(s', es, second);
    RunKeeps(s', es);
  }

  // ---------------------------------------------------------------------------
  // Nothing old is accepted
  // ---------------------------------------------------------------------------

  /** Verification accepts exactly the account's own version. */
  lemma {:induction false} CurrentVersionAccepted(s: State, es: seq<Event>, claims: Claims)
    requires Inv(s) && LegalRun(s, es)
    ensures Respond(Run(s, es), Verify(claims)).Accepted? <==>
      claims.user in Run(s, es).users && Run(s, es).users[claims.user].version == claims.version
  {
    RunKeeps(s, es);
  }

  /** A rotated pair is returned exactly when its family's version is the account's; otherwise,
      when the account can be read, the family is to be revoked. */
  lemma {:induction false} ComparisonOutcome(s: State, es: seq<Event>, id: int, readOk: bool)
    requires Inv(s) && LegalRun(s, es)
    requires var t := Run(s, es); id in t.requests && t.requests[id].Rotated?
    ensures var t := Run(s, es); var pair := t.requests[id].pair; var t' := Step(t, CompareVersion(id, readOk));
      && pair.refresh.sid in t.world.families && pair.user in t.users
      && var f := t.world.families[pair.refresh.sid];
         && (Respond(t, CompareVersion(id, readOk)) == if readOk && f.version == t.users[pair.user].version then Refreshed(pair) else Silent)
         && (id in t'.requests <==> readOk && f.version < t.users[pair.user].version)
         && (id in t'.requests ==> t'.requests[id] == Revoking(pair.refresh))
  {
    RunKeeps(s, es);
    var t := Run(s, es);
    assert RequestOk(t, t.requests[id]);
    assert FamilyBehind(t, t.world.families[t.requests[id].pair.refresh.sid]);
  }

  /** A login in flight gets a pair of its user at the version its password was checked at, for
      every positive lifetime; if that is still the account's version, the password is still
      the one stored. */
  lemma {:induction false} LoginOutcome(s: State, es: seq<Event>, e: Event)
    requires Inv(s) && LegalRun(s, es) && e.IssueLogin? && Legal(Run(s, es), e)
    requires e.id in Run(s, es).requests && Run(s, es).requests[e.id].LoggingIn? && e.idle > 0 && e.absoluteTtl > 0
    ensures var t := Run(s, es); var r := t.requests[e.id]; var out := Respond(t, e);
      && r.user in t.users && (r.version == t.users[r.user].version ==> t.users[r.user].password == r.password)
      && out.LoggedIn? && out.pair.user == r.user && out.pair.version == r.version && out.pair.refresh == R.Token(e.sid, e.secret)
      && R.SessionExists(Step(t, e).world.store, e.sid, e.clock)
  {
    RunKeeps(s, es);
    var t := Run(s, es);
    assert RequestOk(t, t.requests[e.id]);
    R.IssueOutcome(t.world, StoreEvent(t, e).value);
  }

  /** Once an account's version has passed v, no later verification accepts v for it, and no
      later refresh answers with a pair of a family created at v. */
  lemma {:induction false} OldVersionIsDead(s: State, es: seq<Event>, e: Event, user: int, v: int)
    requires Inv(s) && LegalRun(s, es) && Legal(Run(s, es), e)
    requires user in s.users && s.users[user].version > v
    ensures Respond(Run(s, es), e) != Accepted(Claims(user, v))
    ensures var out := Respond(Run(s, es), e);
      out.Refreshed? ==>
        && out.pair.refresh.sid in Run(s, es).world.families
        && var f := Run(s, es).world.families[out.pair.refresh.sid];
           out.pair.version == f.version && out.pair.user == f.user && !(f.user == user && f.version <= v)
  {
    RunKeeps(s, es);
    var t := Run(s, es);
    var out := Respond(t, e);
    if out.Refreshed? {
      assert RequestOk(t, t.requests[e.id]);
    }
  }

  /** The families alive when the version passes v stay at the version they were created
      with, so none of them is ever refreshed again. */
  lemma {:induction false} OldFamiliesNeverRefresh(s: State, es: seq<Event>, e: Event, sid: int)
    requires Inv(s) && LegalRun(s, es) && Legal(Run(s, es), e)
    requires sid in s.world.families
    requires s.world.families[sid].version < s.users[s.world.families[sid].user].version
    ensures var out := Respond(Run(s, es), e); out.Refreshed? ==> out.pair.refresh.sid != sid
  {
    var f := s.world.families[sid];
    OldVersionIsDead(s, es, e, f.user, f.version);
    RunKeeps(s, es);
    assert R.Grown(f, Run(s, es).world.families[sid]);
  }

  // ---------------------------------------------------------------------------
  // A stale family is ended
  // ---------------------------------------------------------------------------

  /** Whatever ran since the comparison failed, the revocation that follows it ends the
      family, for good, if and only if the pair's secret is still the family's last or its
      marker still lasts. */
  lemma {:induction false} StaleFamilyEnds(s: State, es: seq<Event>, id: int, clock: int)
    requires Inv(s) && LegalRun(s, es)
    requires var t := Run(s, es); id in t.requests && t.requests[id].Revoking? && Legal(t, RevokeStale(id, clock))
    requires R.SessionExists(Run(s, es).world.store, Run(s, es).requests[id].token.sid, clock)
    ensures var t := Run(s, es); var token := t.requests[id].token;
      && token.sid in t.world.families && |t.world.families[token.sid].chain| > 0
      && (R.Dead(Step(t, RevokeStale(id, clock)).world, token.sid) <==> R.Known(t.world.families[token.sid], token.secret, clock))
      && (token.secret == R.Last(t.world.families[token.sid]) ==> R.Dead(Step(t, RevokeStale(id, clock)).world, token.sid))
  {
    RunKeeps(s, es);
    var t := Run(s, es);
    assert RequestOk(t, t.requests[id]);
    var token := t.requests[id].token;
    var f := t.world.families[token.sid];
    R.RevokeOutcome(t.world, R.Revoke(token, clock));
    if token.secret == R.Last(f) {
      assert R.FamilyOk(t.world.store, token.sid, f, t.world.seen);
      assert f.chain[|f.chain| - 1] == token.secret;
    }
  }
}
