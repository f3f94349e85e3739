/** Refresh-session families: the three Redis scripts, the token service over them, and every
    run of issue, rotate, recover and revoke.

    `clock` is Redis time and `now` the caller's time, both in whole seconds. Secrets are
    fresh numbers, a digest is injective, and a sealed secret opens only with exactly the
    values it was sealed with. */
module RefreshSession {
  import opened Basics
  import O = Ordering

  datatype Digest = Digest(secret: int)

  datatype Sealed = NoSeal | Seal(previous: int, sid: int, digest: Digest, request: int, payload: int)

  datatype Session = Session(user: int, version: int, hash: Digest, createdAt: int, rotatedAt: int, absoluteExpiry: int, expiresAt: int)

  datatype Recovery = Recovery(next: Digest, sealed: Sealed, expiresAt: int)

  /** Keys past their expiry stay in the maps and count as absent. */
  datatype Store = Store(
    sessions: map<int, Session>,
    used: map<(int, Digest), int>,
    recoveries: map<(int, Digest, int), Recovery>)

  datatype Reply = Granted(user: int, version: int, ttl: int, sealed: Sealed) | Invalid | Reused | Expired | Corrupt

  const RECOVERY_TTL: int := 120

  /** Whole seconds of a duration handed to Redis, at least one. */
  function TtlSeconds(seconds: int): int {
    if seconds < 1 then 1 else seconds
  }

  predicate SessionExists(s: Store, sid: int, clock: int) {
    sid in s.sessions && clock < s.sessions[sid].expiresAt
  }

  predicate UsedExists(s: Store, sid: int, h: Digest, clock: int) {
    (sid, h) in s.used && clock < s.used[(sid, h)]
  }

  predicate RecoveryExists(s: Store, sid: int, h: Digest, request: int, clock: int) {
    (sid, h, request) in s.recoveries && clock < s.recoveries[(sid, h, request)].expiresAt
  }

  // ---------------------------------------------------------------------------
  // The scripts as functions
  // ---------------------------------------------------------------------------

  function CreateScript(s: Store, sid: int, session: Session, clock: int): (Store, bool) {
    if SessionExists(s, sid, clock) then (s, false)
    else (s.(sessions := s.sessions[sid := session]), true)
  }

  /** A replay of the request that made the current secret: the stored successor is returned. */
  predicate Recovers(s: Store, sid: int, presented: Digest, now: int, request: Option<int>, clock: int)
    requires SessionExists(s, sid, clock)
  {
    && request.Some?
    && RecoveryExists(s, sid, presented, request.value, clock)
    && s.recoveries[(sid, presented, request.value)].next == s.sessions[sid].hash
    && s.sessions[sid].absoluteExpiry > now
  }

  function RotateScript(s: Store, sid: int, presented: Digest, next: Digest, now: int, idle: int, request: Option<int>, sealed: Sealed, clock: int): (Store, Reply) {
    if !SessionExists(s, sid, clock) then
      (s, if UsedExists(s, sid, presented, clock) then Reused else Invalid)
    else
      var session := s.sessions[sid];
      if session.hash != presented then
        if !UsedExists(s, sid, presented, clock) then (s, Invalid)
        else if Recovers(s, sid, presented, now, request, clock) then
          if session.version < 1 then (s, Corrupt)
          else (s, Granted(session.user, session.version, session.expiresAt - clock, s.recoveries[(sid, presented, request.value)].sealed))
        else (s.(sessions := s.sessions - {sid}), Reused)
      else if session.absoluteExpiry <= now then (s.(sessions := s.sessions - {sid}), Expired)
      else
        var remaining := session.absoluteExpiry - now;
        var ttl := O.Min(idle, remaining);
        if ttl < 1 then (s.(sessions := s.sessions - {sid}), Expired)
        else if session.version < 1 then (s, Corrupt)
        else
          (Store(
             s.sessions[sid := session.(hash := next, rotatedAt := now, expiresAt := clock + ttl)],
             s.used[(sid, presented) := clock + remaining],
             if request.Some? then s.recoveries[(sid, presented, request.value) := Recovery(next, sealed, clock + O.Min(RECOVERY_TTL, ttl))] else s.recoveries),
           Granted(session.user, session.version, ttl, sealed))
  }

  function RevokeScript(s: Store, sid: int, presented: Digest, clock: int): (Store, bool) {
    if !SessionExists(s, sid, clock) then (s, true)
    else if s.sessions[sid].hash != presented && !UsedExists(s, sid, presented, clock) then (s, false)
    else (s.(sessions := s.sessions - {sid}), true)
  }

  /** The Redis store: each method is one atomic script. */
  class RedisRefreshStore {
    var sessions: map<int, Session>
    var used: map<(int, Digest), int>
    var recoveries: map<(int, Digest, int), Recovery>

    ghost function View(): Store
      reads this
    {
      Store(sessions, used, recoveries)
    }

    constructor ()
      ensures View() == Store(map[], map[], map[])
    {
      sessions, used, recoveries := map[], map[], map[];
    }

    method Create(sid: int, session: Session, clock: int) returns (created: bool)
      modifies this
      ensures (View(), created) == CreateScript(old(View()), sid, session, clock)
      ensures created <==> !SessionExists(old(View()), sid, clock)
      ensures View() == if created then old(View()).(sessions := old(sessions)[sid := session]) else old(View())
    {
      if sid in sessions && clock < sessions[sid].expiresAt {
        return false;
      }
      sessions := sessions[sid := session];
      created := true;
    }

    method Rotate(sid: int, presented: Digest, next: Digest, now: int, idle: int, request: Option<int>, sealed: Sealed, clock: int) returns (reply: Reply)
      modifies this
      ensures (View(), reply) == RotateScript(old(View()), sid, presented, next, now, idle, request, sealed, clock)
    {
      var isUsed := (sid, presented) in used && clock < used[(sid, presented)];
      if !(sid in sessions && clock < sessions[sid].expiresAt) {
        if isUsed {
          return Reused;
        }
        return Invalid;
      }
      var session := sessions[sid];
      if session.hash != presented {
        if isUsed {
          if request.Some? && (sid, presented, request.value) in recoveries && clock < recoveries[(sid, presented, request.value)].expiresAt {
            var record := recoveries[(sid, presented, request.value)];
            if session.hash == record.next && session.expiresAt - clock > 0 && session.absoluteExpiry > now {
              if session.version < 1 {
                return Corrupt;
              }
              return Granted(session.user, session.version, session.expiresAt - clock, record.sealed);
            }
          }
          sessions := sessions - {sid};
          return Reused;
        }
        return Invalid;
      }
      if session.absoluteExpiry <= now {
        sessions := sessions - {sid};
        return Expired;
      }
      var remaining := session.absoluteExpiry - now;
      var ttl := idle;
      if ttl > remaining {
        ttl := remaining;
      }
      if ttl < 1 {
        sessions := sessions - {sid};
        return Expired;
      }
      if session.version < 1 {
        return Corrupt;
      }
      used := used[(sid, presented) := clock + remaining];
      sessions := sessions[sid := session.(hash := next, rotatedAt := now, expiresAt := clock + ttl)];
      if request.Some? {
        recoveries := recoveries[(sid, presented, request.value) := Recovery(next, sealed, clock + O.Min(RECOVERY_TTL, ttl))];
      }
      reply := Granted(session.user, session.version, ttl, sealed);
    }

    method Revoke(sid: int, presented: Digest, clock: int) returns (ok: bool)
      modifies this
      ensures (View(), ok) == RevokeScript(old(View()), sid, presented, clock)
      ensures !ok <==> SessionExists(old(View()), sid, clock) && old(sessions)[sid].hash != presented && !UsedExists(old(View()), sid, presented, clock)
      ensures View() == if ok && SessionExists(old(View()), sid, clock) then old(View()).(sessions := old(sessions) - {sid}) else old(View())
    {
      if !(sid in sessions && clock < sessions[sid].expiresAt) {
        return true;
      }
      if sessions[sid].hash != presented && !((sid, presented) in used && clock < used[(sid, presented)]) {
        return false;
      }
      sessions := sessions - {sid};
      ok := true;
    }
  }

  // ---------------------------------------------------------------------------
  // The token service
  // ---------------------------------------------------------------------------

  /** A refresh token names a family and carries its secret. */
  datatype Token = Token(sid: int, secret: int)

  datatype Pair = Pair(user: int, version: int, refresh: Token, ttl: int)

  datatype Answer = Issued(pair: Pair) | Refused(why: Reply)

  function OpenSealed(previous: int, sid: int, digest: Digest, request: int, sealed: Sealed): Option<int> {
    if sealed.Seal? && sealed.previous == previous && sealed.sid == sid && sealed.digest == digest && sealed.request == request
    then Some(sealed.payload) else None
  }

  function IssuePair(s: Store, sid: int, secret: int, user: nat, version: int, now: int, idle: int, absoluteTtl: int, clock: int): (Store, Answer) {
    var ttl := O.Min(idle, absoluteTtl);
    if user == 0 || version <= 0 then (s, Refused(Invalid))
    else if ttl <= 0 then (s, Refused(Expired))
    else
      var (t, created) := CreateScript(s, sid, Session(user, version, Digest(secret), now, now, now + absoluteTtl, clock + ttl), clock);
      (t, if created then Issued(Pair(user, version, Token(sid, secret), ttl)) else Refused(Invalid))
  }

  function RotateRefresh(s: Store, token: Token, request: Option<int>, newSecret: int, now: int, idle: int, clock: int): (Store, Answer) {
    var presented := Digest(token.secret);
    var sealed := if request.Some? then Seal(token.secret, token.sid, presented, request.value, newSecret) else NoSeal;
    var (t, reply) := RotateScript(s, token.sid, presented, Digest(newSecret), now, TtlSeconds(idle), request, sealed, clock);
    if !reply.Granted? then (t, Refused(reply))
    else if reply.user <= 0 || reply.version <= 0 || reply.ttl <= 0 then (t, Refused(Corrupt))
    else if request.None? then (t, Issued(Pair(reply.user, reply.version, Token(token.sid, newSecret), reply.ttl)))
    else
      match OpenSealed(token.secret, token.sid, presented, request.value, reply.sealed)
      case None => (t, Refused(Invalid))
      case Some(secret) => (t, Issued(Pair(reply.user, reply.version, Token(token.sid, secret), reply.ttl)))
  }

  /** The token service: configured lifetimes over one store. Generated values and both
      clocks are arguments. */
  class Manager {
    const store: RedisRefreshStore
    const idle: int
    const absoluteTtl: int

    constructor (store: RedisRefreshStore, idle: int, absoluteTtl: int)
      ensures this.store == store && this.idle == idle && this.absoluteTtl == absoluteTtl
    {
      this.store, this.idle, this.absoluteTtl := store, idle, absoluteTtl;
    }

    method Issue(sid: int, secret: int, user: nat, version: int, now: int, clock: int) returns (answer: Answer)
      modifies store
      ensures (store.View(), answer) == IssuePair(old(store.View()), sid, secret, user, version, now, idle, absoluteTtl, clock)
    {
      if user == 0 || version <= 0 {
        return Refused(Invalid);
      }
      var ttl := O.Min(idle, absoluteTtl);
      if ttl <= 0 {
        return Refused(Expired);
      }
      var created := store.Create(sid, Session(user, version, Digest(secret), now, now, now + absoluteTtl, clock + ttl), clock);
      answer := if created then Issued(Pair(user, version, Token(sid, secret), ttl)) else Refused(Invalid);
    }

    method Rotate(token: Token, request: Option<int>, newSecret: int, now: int, clock: int) returns (answer: Answer)
      modifies store
      ensures (store.View(), answer) == RotateRefresh(old(store.View()), token, request, newSecret, now, idle, clock)
    {
      var presented := Digest(token.secret);
      var sealed := NoSeal;
      if request.Some? {
        sealed := Seal(token.secret, token.sid, presented, request.value, newSecret);
      }
      var reply := store.Rotate(token.sid, presented, Digest(newSecret), now, TtlSeconds(idle), request, sealed, clock);
      if !reply.Granted? {
        return Refused(reply);
      }
      if reply.user <= 0 || reply.version <= 0 || reply.ttl <= 0 {
        return Refused(Corrupt);
      }
      var secret := newSecret;
      if request.Some? {
        var payload := OpenSealed(token.secret, token.sid, presented, request.value, reply.sealed);
        if payload.None? {
          return Refused(Invalid);
        }
        secret := payload.value;
      }
      answer := Issued(Pair(reply.user, reply.version, Token(token.sid, secret), reply.ttl));
    }

    method Revoke(token: Token, clock: int) returns (ok: bool)
      modifies store
      ensures (store.View(), ok) == RevokeScript(old(store.View()), token.sid, Digest(token.secret), clock)
    {
      ok := store.Revoke(token.sid, Digest(token.secret), clock);
    }
  }

  // ---------------------------------------------------------------------------
  // Runs
  // ---------------------------------------------------------------------------

  /** What was issued for a family: its secrets in the order they became current, and for
      every secret but the last the request id it was rotated with, the lag of that rotation
      (Redis time minus the caller's time), and until when its answer can be given again. */
  datatype Family = Family(user: int, version: int, absoluteExpiry: int, chain: seq<int>, requests: seq<Option<int>>, lags: seq<int>, until: seq<int>)

  /** `seen` holds every generated secret. */
  datatype World = World(store: Store, families: map<int, Family>, seen: set<int>, clock: int)

  datatype Event =
    | Issue(sid: int, secret: int, user: nat, version: int, now: int, idle: int, absoluteTtl: int, clock: int)
    | Rotate(token: Token, request: Option<int>, newSecret: int, now: int, idle: int, clock: int)
    | Revoke(token: Token, clock: int)

  /** Session ids and generated secrets are fresh, and Redis time does not go back. */
  ghost predicate Legal(w: World, e: Event) {
    && e.clock >= w.clock
    && match e
       case Issue(sid, secret, _, _, _, _, _, _) => sid !in w.families && secret !in w.seen
       case Rotate(_, _, newSecret, _, _, _) => newSecret !in w.seen
       case Revoke(_, _) => true
  }

  function Perform(s: Store, e: Event): (Store, Answer) {
    match e
    case Issue(sid, secret, user, version, now, idle, absoluteTtl, clock) => IssuePair(s, sid, secret, user, version, now, idle, absoluteTtl, clock)
    case Rotate(token, request, newSecret, now, idle, clock) => RotateRefresh(s, token, request, newSecret, now, idle, clock)
    case Revoke(token, clock) => (RevokeScript(s, token.sid, Digest(token.secret), clock).0, Refused(Invalid))
  }

  /** The token's secret is the current one of a live family. */
  predicate Current(s: Store, token: Token, clock: int) {
    SessionExists(s, token.sid, clock) && s.sessions[token.sid].hash == Digest(token.secret)
  }

  function Longer(f: Family, request: Option<int>, newSecret: int, lag: int, until: int): Family {
    f.(chain := f.chain + [newSecret], requests := f.requests + [request], lags := f.lags + [lag], until := f.until + [until])
  }

  /** The books kept beside the store: a granted rotation of a current secret lengthens the
      family's chain; a replayed answer does not. An answer can be given again for two minutes,
      or as long as the session it granted. */
  function Extend(w: World, e: Event): map<int, Family> {
    if !Perform(w.store, e).1.Issued? then w.families
    else
      match e
      case Issue(sid, secret, user, version, now, _, absoluteTtl, _) => w.families[sid := Family(user, version, now + absoluteTtl, [secret], [], [], [])]
      case Rotate(token, request, newSecret, now, _, clock) =>
        if Current(w.store, token, clock) && token.sid in w.families then
          w.families[token.sid := Longer(w.families[token.sid], request, newSecret, clock - now, clock + O.Min(120, Perform(w.store, e).1.pair.ttl))]
        else w.families
      case Revoke(_, _) => w.families
  }

  function Step(w: World, e: Event): World {
    World(
      Perform(w.store, e).0,
      Extend(w, e),
      match e { case Issue(_, secret, _, _, _, _, _, _) => w.seen + {secret} case Rotate(_, _, newSecret, _, _, _) => w.seen + {newSecret} case Revoke(_, _) => w.seen },
      e.clock)
  }

  // ---------------------------------------------------------------------------
  // What every step keeps
  // ---------------------------------------------------------------------------

  ghost predicate ChainOk(f: Family, seen: set<int>) {
    && |f.chain| == |f.requests| + 1 == |f.lags| + 1 == |f.until| + 1
    && Distinct(f.chain)
    && (forall i :: 0 <= i < |f.chain| ==> f.chain[i] in seen)
    && f.user > 0
    && f.version > 0
  }

  function Last(f: Family): int
    requires |f.chain| > 0
  {
    f.chain[|f.chain| - 1]
  }

  /** A stored session carries the family's last secret and what the family was created with,
      and does not outlast the absolute expiry as seen by the rotation that made it. */
  ghost predicate SessionOk(s: Store, sid: int, f: Family)
    requires |f.chain| > 0
  {
    sid in s.sessions ==>
      && s.sessions[sid].hash == Digest(Last(f))
      && s.sessions[sid].user == f.user
      && s.sessions[sid].version == f.version
      && s.sessions[sid].absoluteExpiry == f.absoluteExpiry
      && (f.lags != [] ==> s.sessions[sid].expiresAt <= f.absoluteExpiry + f.lags[|f.lags| - 1])
  }

  /** Used markers are exactly those of the secrets before the last, and each lasts to the
      absolute expiry as seen by the rotation that wrote it. */
  ghost predicate UsedOk(s: Store, sid: int, f: Family)
    requires |f.chain| == |f.requests| + 1 == |f.lags| + 1
  {
    && (forall i :: 0 <= i < |f.requests| ==> (sid, Digest(f.chain[i])) in s.used && s.used[(sid, Digest(f.chain[i]))] == f.absoluteExpiry + f.lags[i])
    && (forall h :: (sid, h) in s.used ==> h.secret in f.chain[..|f.requests|])
  }

  ghost predicate RecordOk(s: Store, sid: int, f: Family, i: int)
    requires |f.chain| == |f.requests| + 1 == |f.until| + 1 && 0 <= i < |f.requests| && f.requests[i].Some?
  {
    var key := (sid, Digest(f.chain[i]), f.requests[i].value);
    && key in s.recoveries
    && s.recoveries[key].next == Digest(f.chain[i + 1])
    && s.recoveries[key].sealed == Seal(f.chain[i], sid, Digest(f.chain[i]), f.requests[i].value, f.chain[i + 1])
    && s.recoveries[key].expiresAt == f.until[i]
  }

  ghost predicate KeyOk(f: Family, h: Digest, request: int)
    requires |f.chain| == |f.requests| + 1
  {
    exists i :: 0 <= i < |f.requests| && f.chain[i] == h.secret && f.requests[i] == Some(request)
  }

  /** Recovery records are exactly those of the rotations that had a request id, and each
      holds the immediate successor. */
  ghost predicate RecoveriesOk(s: Store, sid: int, f: Family)
    requires |f.chain| == |f.requests| + 1 == |f.until| + 1
  {
    && (forall i :: 0 <= i < |f.requests| && f.requests[i].Some? ==> RecordOk(s, sid, f, i))
    && (forall h, r :: (sid, h, r) in s.recoveries ==> KeyOk(f, h, r))
  }

  ghost predicate FamilyOk(s: Store, sid: int, f: Family, seen: set<int>) {
    ChainOk(f, seen) && SessionOk(s, sid, f) && UsedOk(s, sid, f) && RecoveriesOk(s, sid, f)
  }

  ghost predicate Absent(s: Store, sid: int) {
    && sid !in s.sessions
    && (forall h :: (sid, h) !in s.used)
    && (forall h, r :: (sid, h, r) !in s.recoveries)
  }

  ghost predicate Inv(w: World) {
    && (forall sid :: sid in w.families ==> FamilyOk(w.store, sid, w.families[sid], w.seen))
    && (forall sid :: sid !in w.families ==> Absent(w.store, sid))
  }

  function Start(clock: int): World {
    World(Store(map[], map[], map[]), map[], {}, clock)
  }

  lemma StartInv(clock: int)
    ensures Inv(Start(clock))
  { }

  /** Two stores hold the same keys for a family. */
  ghost predicate SameAt(s: Store, t: Store, sid: int) {
    && (sid in s.sessions <==> sid in t.sessions)
    && (sid in s.sessions ==> s.sessions[sid] == t.sessions[sid])
    && (forall h :: (sid, h) in s.used <==> (sid, h) in t.used)
    && (forall h :: (sid, h) in s.used ==> s.used[(sid, h)] == t.used[(sid, h)])
    && (forall h, r :: (sid, h, r) in s.recoveries <==> (sid, h, r) in t.recoveries)
    && (forall h, r :: (sid, h, r) in s.recoveries ==> s.recoveries[(sid, h, r)] == t.recoveries[(sid, h, r)])
  }

  function Sid(e: Event): int {
    match e
    case Issue(sid, _, _, _, _, _, _, _) => sid
    case Rotate(token, _, _, _, _, _) => token.sid
    case Revoke(token, _) => token.sid
  }

  lemma RotateIsolated(s: Store, e: Event, sid: int)
    requires e.Rotate? && sid != e.token.sid
    ensures SameAt(s, Perform(s, e).0, sid)
  { }

  /** An event touches only the keys of the family it names. */
  lemma Isolated(w: World, e: Event, sid: int)
    requires sid != Sid(e)
    ensures SameAt(w.store, Step(w, e).store, sid)
    ensures sid in w.families <==> sid in Step(w, e).families
    ensures sid in w.families ==> Step(w, e).families[sid] == w.families[sid]
  {
    if e.Rotate? {
      RotateIsolated(w.store, e, sid);
    }
  }

  lemma FamilyFrame(s: Store, t: Store, sid: int, f: Family, seen: set<int>, seen': set<int>)
    requires FamilyOk(s, sid, f, seen) && SameAt(s, t, sid) && seen <= seen'
    ensures FamilyOk(t, sid, f, seen')
  { }

  // ---------------------------------------------------------------------------
  // The outcomes of one rotation
  // ---------------------------------------------------------------------------

  /** Presenting the current secret: the only outcome besides expiry is the next link. */
  lemma CurrentOutcome(w: World, e: Event)
    requires Inv(w) && e.Rotate? && Current(w.store, e.token, e.clock)
    ensures e.token.sid in w.families
    ensures var f := w.families[e.token.sid];
      && e.token.secret == Last(f)
      && (if f.absoluteExpiry <= e.now then
            Perform(w.store, e) == (w.store.(sessions := w.store.sessions - {e.token.sid}), Refused(Expired))
          else
            && Perform(w.store, e).1.Issued?
            && Perform(w.store, e).1.pair == Pair(f.user, f.version, Token(e.token.sid, e.newSecret), O.Min(TtlSeconds(e.idle), f.absoluteExpiry - e.now)))
  { }

  /** Two minutes, or the lifetime the rotation granted. */
  function RecoverableUntil(f: Family, e: Event): int
    requires e.Rotate?
  {
    e.clock + O.Min(120, O.Min(TtlSeconds(e.idle), f.absoluteExpiry - e.now))
  }

  /** The store after a rotation of the current secret. */
  ghost predicate Linked(s: Store, t: Store, sid: int, f: Family, request: Option<int>, newSecret: int, lag: int, until: int)
    requires |f.chain| > 0
  {
    && sid in s.sessions && sid in t.sessions
    && t.sessions[sid].(rotatedAt := 0, expiresAt := 0) == s.sessions[sid].(rotatedAt := 0, expiresAt := 0, hash := Digest(newSecret))
    && t.sessions[sid].expiresAt <= f.absoluteExpiry + lag
    && t.used == s.used[(sid, Digest(Last(f))) := f.absoluteExpiry + lag]
    && (if request.None? then t.recoveries == s.recoveries
        else
          var key := (sid, Digest(Last(f)), request.value);
          && key in t.recoveries
          && t.recoveries[key].next == Digest(newSecret)
          && t.recoveries[key].sealed == Seal(Last(f), sid, Digest(Last(f)), request.value, newSecret)
          && t.recoveries[key].expiresAt == until
          && t.recoveries == s.recoveries[key := t.recoveries[key]])
  }

  lemma LinkedOutcome(w: World, e: Event)
    requires Inv(w) && Legal(w, e) && e.Rotate? && Current(w.store, e.token, e.clock)
    requires w.families[e.token.sid].absoluteExpiry > e.now
    ensures |w.families[e.token.sid].chain| > 0
    ensures Linked(w.store, Step(w, e).store, e.token.sid, w.families[e.token.sid], e.request, e.newSecret, e.clock - e.now, RecoverableUntil(w.families[e.token.sid], e))
    ensures Step(w, e).families == w.families[e.token.sid := Longer(w.families[e.token.sid], e.request, e.newSecret, e.clock - e.now, RecoverableUntil(w.families[e.token.sid], e))]
  { }

  lemma LinkUsed(s: Store, t: Store, sid: int, f: Family, seen: set<int>, request: Option<int>, newSecret: int, lag: int, until: int)
    requires FamilyOk(s, sid, f, seen) && newSecret !in seen && Linked(s, t, sid, f, request, newSecret, lag, until)
    ensures UsedOk(t, sid, Longer(f, request, newSecret, lag, until))
  { }

  lemma LinkRecoveries(s: Store, t: Store, sid: int, f: Family, seen: set<int>, request: Option<int>, newSecret: int, lag: int, until: int)
    requires FamilyOk(s, sid, f, seen) && newSecret !in seen && Linked(s, t, sid, f, request, newSecret, lag, until)
    ensures RecoveriesOk(t, sid, Longer(f, request, newSecret, lag, until))
  {
    var g := Longer(f, request, newSecret, lag, until);
    var n := |f.requests|;
    forall i | 0 <= i < |g.requests| && g.requests[i].Some? ensures RecordOk(t, sid, g, i) {
      if i < n {
        assert RecordOk(s, sid, f, i);
      }
    }
    forall h, r | (sid, h, r) in t.recoveries ensures KeyOk(g, h, r) {
      if (sid, h, r) in s.recoveries {
        assert KeyOk(f, h, r);
        var i :| 0 <= i < n && f.chain[i] == h.secret && f.requests[i] == Some(r);
        assert g.chain[i] == h.secret && g.requests[i] == Some(r);
      } else {
        assert g.chain[n] == h.secret && g.requests[n] == Some(r);
      }
    }
  }

  lemma LinkFamily(s: Store, t: Store, sid: int, f: Family, seen: set<int>, request: Option<int>, newSecret: int, lag: int, until: int)
    requires FamilyOk(s, sid, f, seen) && newSecret !in seen && Linked(s, t, sid, f, request, newSecret, lag, until)
    ensures FamilyOk(t, sid, Longer(f, request, newSecret, lag, until), seen + {newSecret})
  {
    LinkUsed(s, t, sid, f, seen, request, newSecret, lag, until);
    LinkRecoveries(s, t, sid, f, seen, request, newSecret, lag, until);
    var g := Longer(f, request, newSecret, lag, until);
    assert ChainOk(g, seen + {newSecret});
    assert t.sessions[sid].user == s.sessions[sid].user && t.sessions[sid].version == s.sessions[sid].version;
    assert SessionOk(t, sid, g);
  }

  /** The store and the books after the current secret was rotated. */
  lemma LinkKeeps(w: World, e: Event)
    requires Inv(w) && Legal(w, e) && e.Rotate? && Current(w.store, e.token, e.clock)
    requires w.families[e.token.sid].absoluteExpiry > e.now
    ensures var w' := Step(w, e); FamilyOk(w'.store, e.token.sid, w'.families[e.token.sid], w'.seen)
  {
    LinkedOutcome(w, e);
    assert FamilyOk(w.store, e.token.sid, w.families[e.token.sid], w.seen);
    LinkFamily(w.store, Step(w, e).store, e.token.sid, w.families[e.token.sid], w.seen, e.request, e.newSecret, e.clock - e.now, RecoverableUntil(w.families[e.token.sid], e));
  }

  /** Every other rotation leaves the family's keys alone or deletes its session. */
  lemma OtherOutcome(w: World, e: Event)
    requires Inv(w) && e.Rotate?
    requires Current(w.store, e.token, e.clock) ==> w.families[e.token.sid].absoluteExpiry <= e.now
    ensures Step(w, e).families == w.families
    ensures Step(w, e).store == w.store || Step(w, e).store == w.store.(sessions := w.store.sessions - {e.token.sid})
  { }

  lemma DropKeeps(s: Store, sid: int, f: Family, seen: set<int>, seen': set<int>)
    requires FamilyOk(s, sid, f, seen) && seen <= seen'
    ensures FamilyOk(s.(sessions := s.sessions - {sid}), sid, f, seen')
  { }

  lemma NamedFamilyKeeps(w: World, e: Event)
    requires Inv(w) && Legal(w, e)
    ensures var w' := Step(w, e);
      if Sid(e) in w'.families then FamilyOk(w'.store, Sid(e), w'.families[Sid(e)], w'.seen) else Absent(w'.store, Sid(e))
  {
    var sid, w' := Sid(e), Step(w, e);
    if e.Issue? {
      assert Absent(w.store, sid);
    } else if e.Rotate? && Current(w.store, e.token, e.clock) && w.families[sid].absoluteExpiry > e.now {
      LinkKeeps(w, e);
      CurrentOutcome(w, e);
    } else {
      if e.Rotate? {
        OtherOutcome(w, e);
      }
      if sid in w.families {
        FamilyFrame(w.store, w.store, sid, w.families[sid], w.seen, w'.seen);
        DropKeeps(w.store, sid, w.families[sid], w.seen, w'.seen);
      }
    }
  }

  lemma StepKeeps(w: World, e: Event)
    requires Inv(w) && Legal(w, e)
    ensures Inv(Step(w, e))
  {
    var w' := Step(w, e);
    NamedFamilyKeeps(w, e);
    forall sid | sid in w'.families ensures FamilyOk(w'.store, sid, w'.families[sid], w'.seen) {
      if sid != Sid(e) {
        Isolated(w, e, sid);
        FamilyFrame(w.store, w'.store, sid, w.families[sid], w.seen, w'.seen);
      }
    }
    forall sid | sid !in w'.families ensures Absent(w'.store, sid) {
      if sid != Sid(e) {
        Isolated(w, e, sid);
      }
    }
  }

  function Run(w: World, es: seq<Event>): World
    decreases |es|
  {
    if es == [] then w else Run(Step(w, es[0]), es[1..])
  }

  ghost predicate LegalRun(w: World, es: seq<Event>)
    decreases |es|
  {
    es != [] ==> Legal(w, es[0]) && LegalRun(Step(w, es[0]), es[1..])
  }

  /** In every run the store and the books agree. */
  lemma {:induction false} RunKeeps(w: World, es: seq<Event>)
    requires Inv(w) && LegalRun(w, es)
    ensures Inv(Run(w, es))
    decreases |es|
  {
    if es != [] {
      StepKeeps(w, es[0]);
      RunKeeps(Step(w, es[0]), es[1..]);
    }
  }

  // ---------------------------------------------------------------------------
  // One chain, never back
  // ---------------------------------------------------------------------------

  ghost predicate Grown(f: Family, g: Family) {
    && g.user == f.user && g.version == f.version && g.absoluteExpiry == f.absoluteExpiry
    && f.chain <= g.chain
    && f.requests <= g.requests
    && f.lags <= g.lags
    && f.until <= g.until
  }

  ghost predicate AllGrown(w: World, w': World) {
    forall sid :: sid in w.families ==> sid in w'.families && Grown(w.families[sid], w'.families[sid])
  }

  lemma StepGrows(w: World, e: Event)
    requires Legal(w, e)
    ensures AllGrown(w, Step(w, e))
  { }

  lemma GrownAdds(w: World, v: World, u: World)
    requires AllGrown(w, v) && AllGrown(v, u)
    ensures AllGrown(w, u)
  {
    forall sid | sid in w.families ensures sid in u.families && Grown(w.families[sid], u.families[sid]) {
      assert Grown(w.families[sid], v.families[sid]) && Grown(v.families[sid], u.families[sid]);
    }
  }

  /** Families keep their user, version and absolute expiry, and chains only get longer. */
  lemma {:induction false} ChainsGrow(w: World, es: seq<Event>)
    requires LegalRun(w, es)
    ensures AllGrown(w, Run(w, es))
    decreases |es|
  {
    if es != [] {
      StepGrows(w, es[0]);
      ChainsGrow(Step(w, es[0]), es[1..]);
      GrownAdds(w, Step(w, es[0]), Run(w, es));
    }
  }

  /** A rotated-out secret never becomes current again. */
  lemma {:induction false} NeverCurrentAgain(w: World, es: seq<Event>, sid: int, i: int, clock: int)
    requires Inv(w) && LegalRun(w, es)
    requires sid in w.families && 0 <= i < |w.families[sid].requests|
    ensures !Current(Run(w, es).store, Token(sid, w.families[sid].chain[i]), clock)
  {
    RunKeeps(w, es);
    ChainsGrow(w, es);
    var g := Run(w, es).families[sid];
    assert FamilyOk(Run(w, es).store, sid, g, Run(w, es).seen);
    assert FamilyOk(w.store, sid, w.families[sid], w.seen);
    assert g.chain[i] == w.families[sid].chain[i] && g.chain[i] != Last(g);
  }

  /** Whatever is granted is the family's last secret afterwards, with the user and the
      version the family was created with: successful rotations form one chain. */
  lemma GrantIsLast(w: World, e: Event)
    requires Inv(w) && Legal(w, e) && Perform(w.store, e).1.Issued?
    ensures var pair := Perform(w.store, e).1.pair; var w' := Step(w, e);
      && pair.refresh.sid == Sid(e) && Sid(e) in w'.families
      && var f := w'.families[Sid(e)];
         && |f.chain| > 0 && pair.refresh.secret == Last(f) && pair.user == f.user && pair.version == f.version
         && SessionExists(w'.store, Sid(e), e.clock)
         && w'.store.sessions[Sid(e)].expiresAt == e.clock + pair.ttl
  {
    if e.Rotate? {
      if Current(w.store, e.token, e.clock) {
        CurrentOutcome(w, e);
        CurrentGrant(w, e);
      } else {
        ReplayIndex(w, e);
      }
    }
  }

  lemma CurrentGrant(w: World, e: Event)
    requires Inv(w) && Legal(w, e) && e.Rotate? && Current(w.store, e.token, e.clock) && w.families[e.token.sid].absoluteExpiry > e.now
    ensures var w' := Step(w, e); var f := w'.families[e.token.sid];
      && |f.chain| > 0 && Last(f) == e.newSecret
      && f.user == w.families[e.token.sid].user && f.version == w.families[e.token.sid].version
      && SessionExists(w'.store, e.token.sid, e.clock)
      && w'.store.sessions[e.token.sid].expiresAt == e.clock + O.Min(TtlSeconds(e.idle), f.absoluteExpiry - e.now)
  {
    LinkedOutcome(w, e);
  }

  /** The position of a rotated-out secret in its family. */
  ghost predicate RotatedOut(w: World, token: Token, i: int) {
    token.sid in w.families && 0 <= i < |w.families[token.sid].requests| < |w.families[token.sid].chain| && i < |w.families[token.sid].until| && w.families[token.sid].chain[i] == token.secret
  }

  /** A replay is answered only to the request that made the current secret, as long as its
      answer can be given again. */
  ghost predicate Replays(w: World, e: Event, i: int)
    requires e.Rotate? && RotatedOut(w, e.token, i)
  {
    var f := w.families[e.token.sid];
    && i == |f.requests| - 1
    && e.request.Some? && f.requests[i] == e.request
    && e.clock < f.until[i]
    && f.absoluteExpiry > e.now
  }

  /** Presenting a rotated-out secret whose marker is alive, while the family is: the stored
      immediate successor with nothing changed, or the end of the family. */
  lemma ReplayOutcome(w: World, e: Event, i: int)
    requires Inv(w) && Legal(w, e) && e.Rotate? && RotatedOut(w, e.token, i)
    requires SessionExists(w.store, e.token.sid, e.clock)
    requires UsedExists(w.store, e.token.sid, Digest(e.token.secret), e.clock)
    ensures var sid := e.token.sid; var f := w.families[sid];
      Perform(w.store, e) ==
        if Replays(w, e, i) then
          (w.store, Issued(Pair(f.user, f.version, Token(sid, f.chain[i + 1]), w.store.sessions[sid].expiresAt - e.clock)))
        else (w.store.(sessions := w.store.sessions - {sid}), Refused(Reused))
  {
    var sealed := if e.request.Some? then Seal(e.token.secret, e.token.sid, Digest(e.token.secret), e.request.value, e.newSecret) else NoSeal;
    ReplayReply(w, e, i, sealed);
  }

  /** The same for the script alone. */
  lemma ReplayReply(w: World, e: Event, i: int, sealed: Sealed)
    requires Inv(w) && e.Rotate? && RotatedOut(w, e.token, i)
    requires SessionExists(w.store, e.token.sid, e.clock)
    requires UsedExists(w.store, e.token.sid, Digest(e.token.secret), e.clock)
    ensures var sid := e.token.sid; var f := w.families[sid]; var h := Digest(e.token.secret);
      RotateScript(w.store, sid, h, Digest(e.newSecret), e.now, TtlSeconds(e.idle), e.request, sealed, e.clock) ==
        if Replays(w, e, i) then
          (w.store, Granted(f.user, f.version, w.store.sessions[sid].expiresAt - e.clock, Seal(e.token.secret, sid, h, e.request.value, f.chain[i + 1])))
        else (w.store.(sessions := w.store.sessions - {sid}), Reused)
    ensures w.families[e.token.sid].user > 0 && w.families[e.token.sid].version > 0
  {
    ReplayFacts(w, e, i);
  }

  lemma ReplayFacts(w: World, e: Event, i: int)
    requires Inv(w) && e.Rotate? && RotatedOut(w, e.token, i) && SessionExists(w.store, e.token.sid, e.clock)
    ensures var sid := e.token.sid; var f := w.families[sid]; var h := Digest(e.token.secret); var session := w.store.sessions[sid];
      && session.hash != h && session.user == f.user > 0 && session.version == f.version > 0
      && (Recovers(w.store, sid, h, e.now, e.request, e.clock) <==> Replays(w, e, i))
      && (Replays(w, e, i) ==> w.store.recoveries[(sid, h, e.request.value)].sealed == Seal(e.token.secret, sid, h, e.request.value, f.chain[i + 1]))
  {
    var sid := e.token.sid;
    var f := w.families[sid];
    assert FamilyOk(w.store, sid, f, w.seen);
    assert f.chain[i] != Last(f);
    if e.request.Some? {
      RecoveredRecord(w.store, sid, f, w.seen, i, e.request.value);
    }
  }

  /** The recovery record of a rotated-out secret and a request id: it exists exactly if that
      request made the successor, opens to it, and names the current secret only for the last
      rotation. */
  lemma RecoveredRecord(s: Store, sid: int, f: Family, seen: set<int>, i: int, request: int)
    requires FamilyOk(s, sid, f, seen) && 0 <= i < |f.requests|
    ensures var key := (sid, Digest(f.chain[i]), request);
      && (key in s.recoveries <==> f.requests[i] == Some(request))
      && (key in s.recoveries ==>
            && (s.recoveries[key].next == Digest(Last(f)) <==> i == |f.requests| - 1)
            && s.recoveries[key].sealed == Seal(f.chain[i], sid, Digest(f.chain[i]), request, f.chain[i + 1])
            && s.recoveries[key].expiresAt == f.until[i])
  {
    if f.requests[i] == Some(request) {
      assert RecordOk(s, sid, f, i);
    }
    if (sid, Digest(f.chain[i]), request) in s.recoveries {
      assert KeyOk(f, Digest(f.chain[i]), request);
    }
  }

  lemma ReplayIndex(w: World, e: Event)
    requires Inv(w) && Legal(w, e) && e.Rotate? && !Current(w.store, e.token, e.clock) && Perform(w.store, e).1.Issued?
    ensures exists i :: RotatedOut(w, e.token, i) && Replays(w, e, i)
    ensures Step(w, e).store == w.store
    ensures e.token.sid in w.families && |w.families[e.token.sid].chain| > 0
    ensures Perform(w.store, e).1.pair == Pair(w.families[e.token.sid].user, w.families[e.token.sid].version, Token(e.token.sid, Last(w.families[e.token.sid])), w.store.sessions[e.token.sid].expiresAt - e.clock)
  {
    var f := w.families[e.token.sid];
    assert FamilyOk(w.store, e.token.sid, f, w.seen);
    assert e.token.secret in f.chain[..|f.requests|];
    var i :| 0 <= i < |f.requests| && f.chain[i] == e.token.secret;
    assert RotatedOut(w, e.token, i);
    ReplayOutcome(w, e, i);
  }

  lemma {:induction false} OthersOnly(w: World, es: seq<Event>, sid: int)
    requires sid in w.families && LegalRun(w, es) && forall i :: 0 <= i < |es| ==> Sid(es[i]) != sid
    ensures sid in Run(w, es).families && Run(w, es).families[sid] == w.families[sid]
    ensures SameAt(w.store, Run(w, es).store, sid)
    decreases |es|
  {
    if es != [] {
      Isolated(w, es[0], sid);
      OthersOnly(Step(w, es[0]), es[1..], sid);
    }
  }

  /** What a granted rotation leaves behind for its own family. */
  lemma RotationLeaves(w: World, e: Event)
    requires Inv(w) && Legal(w, e) && e.Rotate? && Current(w.store, e.token, e.clock) && w.families[e.token.sid].absoluteExpiry > e.now
    ensures var f := w.families[e.token.sid]; var w' := Step(w, e);
      && |f.chain| > 0 && w'.families == w.families[e.token.sid := Longer(f, e.request, e.newSecret, e.clock - e.now, RecoverableUntil(f, e))]
      && e.token.sid in w'.store.sessions
      && w'.store.sessions[e.token.sid].expiresAt == e.clock + O.Min(TtlSeconds(e.idle), f.absoluteExpiry - e.now)
      && RotatedOut(w', e.token, |f.requests|)
  {
    CurrentOutcome(w, e);
    LinkedOutcome(w, e);
    CurrentGrant(w, e);
  }

  lemma GoneOutcome(w: World, e: Event)
    requires e.Rotate? && !SessionExists(w.store, e.token.sid, e.clock)
    ensures Perform(w.store, e) ==
      (w.store, Refused(if UsedExists(w.store, e.token.sid, Digest(e.token.secret), e.clock) then Reused else Invalid))
  { }

  /** What a retry of a granted rotation finds, as long as that made the current secret. */
  ghost predicate LastLink(v: World, token: Token, request: Option<int>, granted: Pair, since: int, expiry: int, marked: int) {
    && token.sid in v.families
    && var f := v.families[token.sid]; var i := |f.requests| - 1;
       && RotatedOut(v, token, i)
       && request.Some? && f.requests[i] == request
       && |f.lags| == |f.until| == |f.requests| == |f.chain| - 1
       && granted == Pair(f.user, f.version, Token(token.sid, Last(f)), granted.ttl)
       && f.until[i] == since + O.Min(120, granted.ttl)
       && f.absoluteExpiry == expiry && f.absoluteExpiry + f.lags[i] == marked
       && token.sid in v.store.sessions && v.store.sessions[token.sid].expiresAt == since + granted.ttl <= marked
  }

  /** The answer to a retry, from what the rotation had granted. */
  ghost predicate Retried(s: Store, sid: int, result: (Store, Answer), granted: Pair, since: int, clock: int, now: int, expiry: int, marked: int) {
    && sid in s.sessions && s.sessions[sid].expiresAt == since + granted.ttl <= marked
    && result ==
         if clock < since + O.Min(120, granted.ttl) && now < expiry then (s, Issued(granted.(ttl := since + granted.ttl - clock)))
         else if clock < since + granted.ttl then (s.(sessions := s.sessions - {sid}), Refused(Reused))
         else (s, Refused(if clock < marked then Reused else Invalid))
  }

  lemma RetryOutcome(v: World, retry: Event, granted: Pair, since: int, expiry: int, marked: int)
    requires Inv(v) && Legal(v, retry) && retry.Rotate? && LastLink(v, retry.token, retry.request, granted, since, expiry, marked)
    ensures Retried(v.store, retry.token.sid, Perform(v.store, retry), granted, since, retry.clock, retry.now, expiry, marked)
  {
    MarkerLifetime(v, retry.token, |v.families[retry.token.sid].requests| - 1, retry.clock);
    if SessionExists(v.store, retry.token.sid, retry.clock) {
      LiveRetry(v, retry, granted, since, expiry, marked);
    } else {
      GoneOutcome(v, retry);
    }
  }

  lemma LiveRetry(v: World, retry: Event, granted: Pair, since: int, expiry: int, marked: int)
    requires Inv(v) && Legal(v, retry) && retry.Rotate? && LastLink(v, retry.token, retry.request, granted, since, expiry, marked)
    requires SessionExists(v.store, retry.token.sid, retry.clock) && UsedExists(v.store, retry.token.sid, Digest(retry.token.secret), retry.clock)
    ensures Perform(v.store, retry) ==
      if retry.clock < since + O.Min(120, granted.ttl) && retry.now < expiry then (v.store, Issued(granted.(ttl := since + granted.ttl - retry.clock)))
      else (v.store.(sessions := v.store.sessions - {retry.token.sid}), Refused(Reused))
  {
    ReplayOutcome(v, retry, |v.families[retry.token.sid].requests| - 1);
  }

  lemma LinkIsLast(w: World, e: Event)
    requires Inv(w) && Legal(w, e) && e.Rotate? && e.request.Some?
    requires Current(w.store, e.token, e.clock) && w.families[e.token.sid].absoluteExpiry > e.now
    ensures var f := w.families[e.token.sid];
      var granted := Pair(f.user, f.version, Token(e.token.sid, e.newSecret), O.Min(TtlSeconds(e.idle), f.absoluteExpiry - e.now));
      LastLink(Step(w, e), e.token, e.request, granted, e.clock, f.absoluteExpiry, f.absoluteExpiry + (e.clock - e.now))
  {
    RotationLeaves(w, e);
    assert FamilyOk(w.store, e.token.sid, w.families[e.token.sid], w.seen);
  }

  lemma LastLinkFrame(w: World, v: World, token: Token, request: Option<int>, granted: Pair, since: int, expiry: int, marked: int)
    requires LastLink(w, token, request, granted, since, expiry, marked) && SameAt(w.store, v.store, token.sid)
    requires token.sid in v.families && v.families[token.sid] == w.families[token.sid]
    ensures LastLink(v, token, request, granted, since, expiry, marked)
  { }

  /** The successor again, with nothing changed, for two minutes or as long as the session
      granted, if that is shorter, and not after the absolute expiry; from then on, while the
      marker lasts, the end of the family. */
  ghost predicate Recoverable(s: Store, retry: Event, granted: Pair, since: int, expiry: int, marked: int)
    requires retry.Rotate?
  {
    var again := Issued(granted.(ttl := since + granted.ttl - retry.clock));
    && (Perform(s, retry) == (s, again) <==> retry.clock < since + O.Min(120, granted.ttl) && retry.now < expiry)
    && (retry.clock < marked && Perform(s, retry) != (s, again) ==>
          Perform(s, retry).1 == Refused(Reused) && !SessionExists(Perform(s, retry).0, retry.token.sid, retry.clock))
  }

  lemma WindowOf(s: Store, retry: Event, granted: Pair, since: int, expiry: int, marked: int)
    requires retry.Rotate? && Retried(s, retry.token.sid, Perform(s, retry), granted, since, retry.clock, retry.now, expiry, marked)
    ensures Recoverable(s, retry, granted, since, expiry, marked)
  { }

  lemma {:induction false} RetryAfterOthers(w: World, es: seq<Event>, retry: Event, granted: Pair, since: int, expiry: int, marked: int)
    requires Inv(w) && retry.Rotate? && LastLink(w, retry.token, retry.request, granted, since, expiry, marked)
    requires LegalRun(w, es) && forall i :: 0 <= i < |es| ==> Sid(es[i]) != retry.token.sid
    requires Legal(Run(w, es), retry)
    ensures Recoverable(Run(w, es).store, retry, granted, since, expiry, marked)
  {
    OthersOnly(w, es, retry.token.sid);
    LastLinkFrame(w, Run(w, es), retry.token, retry.request, granted, since, expiry, marked);
    RunKeeps(w, es);
    RetryOutcome(Run(w, es), retry, granted, since, expiry, marked);
    WindowOf(Run(w, es).store, retry, granted, since, expiry, marked);
  }

  lemma Granting(w: World, e: Event)
    requires Inv(w) && Legal(w, e) && e.Rotate? && e.request.Some?
    requires Current(w.store, e.token, e.clock) && w.families[e.token.sid].absoluteExpiry > e.now
    ensures Inv(Step(w, e))
    ensures Perform(w.store, e).1.Issued? && Perform(w.store, e).1.pair.refresh == Token(e.token.sid, e.newSecret)
    ensures e.token.sid in w.families
    ensures var f := w.families[e.token.sid];
      LastLink(Step(w, e), e.token, e.request, Perform(w.store, e).1.pair, e.clock, f.absoluteExpiry, f.absoluteExpiry + (e.clock - e.now))
  {
    CurrentOutcome(w, e);
    LinkIsLast(w, e);
    StepKeeps(w, e);
  }

  /** The lost answer of a rotation, whatever happens to other families meanwhile: until when
      the same token and request get it again. */
  lemma {:induction false} RecoveryWindow(w: World, e: Event, es: seq<Event>, retry: Event)
    requires Inv(w) && Legal(w, e) && e.Rotate? && e.request.Some?
    requires Current(w.store, e.token, e.clock) && w.families[e.token.sid].absoluteExpiry > e.now
    requires LegalRun(Step(w, e), es) && forall i :: 0 <= i < |es| ==> Sid(es[i]) != e.token.sid
    requires retry.Rotate? && retry.token == e.token && retry.request == e.request && Legal(Run(Step(w, e), es), retry)
    ensures Perform(w.store, e).1.Issued? && Perform(w.store, e).1.pair.refresh == Token(e.token.sid, e.newSecret)
    ensures var f := w.families[e.token.sid];
      Recoverable(Run(Step(w, e), es).store, retry, Perform(w.store, e).1.pair, e.clock, f.absoluteExpiry, f.absoluteExpiry + (e.clock - e.now))
  {
    var f := w.families[e.token.sid];
    Granting(w, e);
    RetryAfterOthers(Step(w, e), es, retry, Perform(w.store, e).1.pair, e.clock, f.absoluteExpiry, f.absoluteExpiry + (e.clock - e.now));
  }

  /** A secret that never belonged to the family changes nothing. */
  lemma StrangerIsRefused(w: World, e: Event)
    requires Inv(w) && (e.Rotate? || e.Revoke?)
    requires e.token.sid in w.families ==> e.token.secret !in w.families[e.token.sid].chain
    ensures Perform(w.store, e) == (w.store, Refused(Invalid))
  {
    if e.token.sid in w.families {
      assert FamilyOk(w.store, e.token.sid, w.families[e.token.sid], w.seen);
    } else {
      assert Absent(w.store, e.token.sid);
    }
  }

  // ---------------------------------------------------------------------------
  // The end of a family
  // ---------------------------------------------------------------------------

  ghost predicate Dead(w: World, sid: int) {
    sid in w.families && !SessionExists(w.store, sid, w.clock)
  }

  lemma DeadStep(w: World, e: Event, sid: int)
    requires Inv(w) && Legal(w, e) && Dead(w, sid)
    ensures Dead(Step(w, e), sid)
    ensures Sid(e) == sid ==> !Perform(w.store, e).1.Issued?
  {
    if sid != Sid(e) {
      Isolated(w, e, sid);
    }
  }

  /** A family that was revoked, deleted for reuse or has expired grants nothing ever again. */
  lemma {:induction false} DeadForever(w: World, es: seq<Event>, e: Event, sid: int)
    requires Inv(w) && LegalRun(w, es) && Dead(w, sid)
    requires Legal(Run(w, es), e) && Sid(e) == sid
    ensures Dead(Run(w, es), sid)
    ensures !Perform(Run(w, es).store, e).1.Issued?
    decreases |es|
  {
    if es != [] {
      DeadStep(w, es[0], sid);
      StepKeeps(w, es[0]);
      DeadForever(Step(w, es[0]), es[1..], e, sid);
    } else {
      DeadStep(w, e, sid);
    }
  }

  /** No rotation is granted at or after the absolute expiry, replay or not. */
  lemma NoGrantAfterAbsoluteExpiry(w: World, e: Event)
    requires Inv(w) && Legal(w, e) && e.Rotate? && e.token.sid in w.families
    requires e.now >= w.families[e.token.sid].absoluteExpiry
    ensures !Perform(w.store, e).1.Issued?
  {
    assert FamilyOk(w.store, e.token.sid, w.families[e.token.sid], w.seen);
  }

  // ---------------------------------------------------------------------------
  // Used markers
  // ---------------------------------------------------------------------------

  /** Redis has not yet reached the absolute expiry as the i-th rotation saw it. */
  ghost predicate Marked(f: Family, i: int, clock: int)
    requires 0 <= i < |f.lags|
  {
    clock < f.absoluteExpiry + f.lags[i]
  }

  /** A rotated-out secret has its marker exactly that long, whatever happens to its family. */
  lemma MarkerLifetime(w: World, token: Token, i: int, clock: int)
    requires Inv(w) && RotatedOut(w, token, i)
    ensures i < |w.families[token.sid].lags|
    ensures UsedExists(w.store, token.sid, Digest(token.secret), clock) <==> Marked(w.families[token.sid], i, clock)
  {
    assert FamilyOk(w.store, token.sid, w.families[token.sid], w.seen);
  }

  /** The answer to a rotated-out secret of a live family: as long as its marker lasts, the
      stored immediate successor with nothing changed or the end of the family; afterwards a
      plain refusal that changes nothing. */
  ghost predicate RotatedOutAnswer(w: World, e: Event, i: int)
    requires e.Rotate? && RotatedOut(w, e.token, i) && e.token.sid in w.store.sessions
  {
    var sid := e.token.sid;
    var f := w.families[sid];
    && i < |f.lags| && i + 1 < |f.chain|
    && Perform(w.store, e) ==
         if !Marked(f, i, e.clock) then (w.store, Refused(Invalid))
         else if Replays(w, e, i) then
           (w.store, Issued(Pair(f.user, f.version, Token(sid, f.chain[i + 1]), w.store.sessions[sid].expiresAt - e.clock)))
         else (w.store.(sessions := w.store.sessions - {sid}), Refused(Reused))
  }

  lemma RotatedOutAt(w: World, e: Event, i: int)
    requires Inv(w) && Legal(w, e) && e.Rotate? && RotatedOut(w, e.token, i) && SessionExists(w.store, e.token.sid, e.clock)
    ensures RotatedOutAnswer(w, e, i)
  {
    MarkerLifetime(w, e.token, i, e.clock);
    if Marked(w.families[e.token.sid], i, e.clock) {
      ReplayOutcome(w, e, i);
    } else {
      ReplayFacts(w, e, i);
    }
  }

  /** In every run a rotated-out secret of a live family is answered so. */
  lemma {:induction false} RotatedOutOutcome(clock: int, es: seq<Event>, e: Event, i: int)
    requires LegalRun(Start(clock), es)
    requires var w := Run(Start(clock), es);
      Legal(w, e) && e.Rotate? && RotatedOut(w, e.token, i) && SessionExists(w.store, e.token.sid, e.clock)
    ensures RotatedOutAnswer(Run(Start(clock), es), e, i)
  {
    StartInv(clock);
    RunKeeps(Start(clock), es);
    RotatedOutAt(Run(Start(clock), es), e, i);
  }

  /** A marker lasts at least as long as the session, if the rotation that made the current
      secret lagged no more than the one that wrote the marker. */
  lemma MarkerOutlivesSession(w: World, token: Token, i: int, clock: int)
    requires Inv(w) && RotatedOut(w, token, i) && SessionExists(w.store, token.sid, clock)
    requires var lags := w.families[token.sid].lags; i < |lags| && lags[|lags| - 1] <= lags[i]
    ensures UsedExists(w.store, token.sid, Digest(token.secret), clock)
  {
    assert FamilyOk(w.store, token.sid, w.families[token.sid], w.seen);
  }

  /** After a granted rotation an earlier marker lasts as long as the session, if and only if
      the session's new lifetime ends no later than the absolute expiry that marker was
      written with. */
  lemma MarkerSurvivesIff(w: World, e: Event, i: int)
    requires Inv(w) && Legal(w, e) && e.Rotate? && Current(w.store, e.token, e.clock)
    requires w.families[e.token.sid].absoluteExpiry > e.now
    requires 0 <= i < |w.families[e.token.sid].lags|
    ensures var f := w.families[e.token.sid]; var s := Step(w, e).store; var h := Digest(f.chain[i]);
      (forall clock :: e.clock <= clock && SessionExists(s, e.token.sid, clock) ==> UsedExists(s, e.token.sid, h, clock))
      <==> e.clock + O.Min(TtlSeconds(e.idle), f.absoluteExpiry - e.now) <= f.absoluteExpiry + f.lags[i]
  {
    var sid := e.token.sid;
    var f := w.families[sid];
    var s := Step(w, e).store;
    var h := Digest(f.chain[i]);
    assert FamilyOk(w.store, sid, f, w.seen);
    assert f.chain[i] != Last(f);
    CurrentOutcome(w, e);
    LinkedOutcome(w, e);
    assert s.used[(sid, h)] == f.absoluteExpiry + f.lags[i];
    GrantIsLast(w, e);
    var end := s.sessions[sid].expiresAt;
    if end > f.absoluteExpiry + f.lags[i] {
      assert SessionExists(s, sid, end - 1);
      assert e.clock <= end - 1 && !UsedExists(s, sid, h, end - 1);
    }
  }

  /** Issuing succeeds exactly for a positive user and version and a positive lifetime, and
      then begins a live family. */
  lemma IssueOutcome(w: World, e: Event)
    requires Inv(w) && Legal(w, e) && e.Issue?
    ensures Perform(w.store, e).1.Issued? <==> e.user > 0 && e.version > 0 && e.idle > 0 && e.absoluteTtl > 0
    ensures Perform(w.store, e).1.Issued? ==>
      && SessionExists(Step(w, e).store, e.sid, e.clock)
      && Perform(w.store, e).1.pair == Pair(e.user, e.version, Token(e.sid, e.secret), O.Min(e.idle, e.absoluteTtl))
      && Step(w, e).families[e.sid] == Family(e.user, e.version, e.now + e.absoluteTtl, [e.secret], [], [], [])
    ensures !Perform(w.store, e).1.Issued? ==> Step(w, e).store == w.store
  {
    assert Absent(w.store, e.sid);
  }

  /** The secret is the family's last, or its marker still lasts. */
  ghost predicate Known(f: Family, secret: int, clock: int) {
    exists i :: 0 <= i < |f.chain| && f.chain[i] == secret && (i < |f.lags| ==> Marked(f, i, clock))
  }

  /** Logout ends a live family exactly when it presents the current secret or an earlier one
      whose marker still lasts; otherwise it changes nothing. */
  lemma RevokeOutcome(w: World, e: Event)
    requires Inv(w) && Legal(w, e) && e.Revoke? && e.token.sid in w.families
    requires SessionExists(w.store, e.token.sid, e.clock)
    ensures Perform(w.store, e).0 ==
      if Known(w.families[e.token.sid], e.token.secret, e.clock) then w.store.(sessions := w.store.sessions - {e.token.sid}) else w.store
  {
    var sid := e.token.sid;
    var f := w.families[sid];
    assert FamilyOk(w.store, sid, f, w.seen);
    if e.token.secret in f.chain {
      var i :| 0 <= i < |f.chain| && f.chain[i] == e.token.secret;
      assert forall j :: 0 <= j < |f.chain| && f.chain[j] == e.token.secret ==> j == i;
      if i < |f.lags| {
        assert RotatedOut(w, e.token, i);
        MarkerLifetime(w, e.token, i, e.clock);
        assert f.chain[i] != Last(f);
      }
    }
  }

  /** Issue, then rotate twice with the caller's clock falling ten seconds behind in between. */
  function FallingBehind(): (es: seq<Event>) {
    [Issue(1, 10, 1, 1, 0, 100, 100, 0), Rotate(Token(1, 10), None, 11, 50, 100, 50), Rotate(Token(1, 11), None, 12, 50, 100, 60)]
  }

  function AfterIssue(): World {
    World(Store(map[1 := Session(1, 1, Digest(10), 0, 0, 100, 100)], map[], map[]), map[1 := Family(1, 1, 100, [10], [], [], [])], {10}, 0)
  }

  function AfterFirst(): World {
    World(
      Store(map[1 := Session(1, 1, Digest(11), 0, 50, 100, 100)], map[(1, Digest(10)) := 100], map[]),
      map[1 := Family(1, 1, 100, [10, 11], [None], [0], [100])],
      {10, 11}, 50)
  }

  function AfterSecond(): World {
    World(
      Store(map[1 := Session(1, 1, Digest(12), 0, 50, 100, 110)], map[(1, Digest(10)) := 100, (1, Digest(11)) := 110], map[]),
      map[1 := Family(1, 1, 100, [10, 11, 12], [None, None], [0, 10], [100, 110])],
      {10, 11, 12}, 60)
  }

  lemma FirstStep()
    ensures Legal(AfterIssue(), FallingBehind()[1]) && Step(AfterIssue(), FallingBehind()[1]) == AfterFirst()
  {
    var f := AfterIssue().families[1];
    assert f.chain + [11] == [10, 11] && f.requests + [None] == [None] && f.lags + [0] == [0] && f.until + [100] == [100];
    assert Step(AfterIssue(), FallingBehind()[1]).store == AfterFirst().store;
  }

  lemma SecondStep()
    ensures Legal(AfterFirst(), FallingBehind()[2]) && Step(AfterFirst(), FallingBehind()[2]) == AfterSecond()
  {
    var f := AfterFirst().families[1];
    assert f.chain + [12] == [10, 11, 12] && f.requests + [None] == [None, None] && f.lags + [10] == [0, 10] && f.until + [110] == [100, 110];
    assert Step(AfterFirst(), FallingBehind()[2]).store == AfterSecond().store;
  }

  lemma FallingBehindRun()
    ensures LegalRun(Start(0), FallingBehind())
    ensures Run(Start(0), FallingBehind()) == AfterSecond()
  {
    var es := FallingBehind();
    assert Step(Start(0), es[0]) == AfterIssue();
    FirstStep();
    SecondStep();
    RunOne(AfterFirst(), es[2]);
    RunTwo(AfterIssue(), es[1], es[2]);
    assert es[1..] == [es[1], es[2]];
  }

  lemma {:induction false} RunOne(w: World, e: Event)
    ensures Run(w, [e]) == Step(w, e) && (LegalRun(w, [e]) <==> Legal(w, e))
  { }

  lemma {:induction false} RunTwo(w: World, d: Event, e: Event)
    ensures Run(w, [d, e]) == Step(Step(w, d), e)
    ensures LegalRun(w, [d, e]) <==> Legal(w, d) && Legal(Step(w, d), e)
  {
    assert [d, e][1..] == [e];
    RunOne(Step(w, d), e);
  }

  /** After it, a rotated-out secret is taken for a stranger while its family is still live. */
  lemma MarkerLostWhenClockFallsBehind()
    ensures var w := Run(Start(0), FallingBehind());
      var replay := Rotate(Token(1, 10), None, 13, 95, 100, 105);
      && LegalRun(Start(0), FallingBehind()) && Legal(w, replay)
      && RotatedOut(w, replay.token, 0)
      && SessionExists(w.store, 1, 105)
      && Perform(w.store, replay) == (w.store, Refused(Invalid))
  {
    FallingBehindRun();
  }
}
