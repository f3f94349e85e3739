/** The Post detail cache and its write fence, for one Post: loaders, writers, invalidators and
    key expiry in any interleaving. */
module CacheFence {
  import opened Basics

  // ---------------------------------------------------------------------------
  // The scripts
  // ---------------------------------------------------------------------------

  function InitializeFence(fence: Option<int>, candidate: int): Option<int> {
    if fence.Some? then fence else Some(candidate)
  }

  /** New fence and cache entry after an invalidation. */
  function InvalidateKeys(token: int): (Option<int>, Option<int>) {
    (Some(token), None)
  }

  function SetIfMatches(fence: Option<int>, cache: Option<int>, expected: int, payload: int): (Option<int>, bool) {
    if fence == Some(expected) then (Some(payload), true) else (cache, false)
  }

  /** The two keys in Redis; each method is one atomic script. */
  class Redis {
    var fence: Option<int>
    var cache: Option<int>

    constructor ()
      ensures fence.None? && cache.None?
    {
      fence, cache := None, None;
    }

    method Initialize(candidate: int) returns (token: int)
      modifies this`fence
      ensures fence == Some(token) == InitializeFence(old(fence), candidate)
    {
      if fence.Some? {
        return fence.value;
      }
      fence := Some(candidate);
      token := candidate;
    }

    method Invalidate(token: int)
      modifies this
      ensures (fence, cache) == InvalidateKeys(token)
    {
      fence := Some(token);
      cache := None;
    }

    method SetIfFenceMatches(expected: int, payload: int) returns (written: bool)
      modifies this`cache
      ensures (cache, written) == SetIfMatches(fence, old(cache), expected, payload)
    {
      if fence.Some? && fence.value == expected {
        cache := Some(payload);
        return true;
      }
      written := false;
    }
  }

  // ---------------------------------------------------------------------------
  // One flight
  // ---------------------------------------------------------------------------

  /** Where a flight stands. Cache and database reads that fail end it. */
  datatype Pc =
    | Checking
    | Fencing(attempt: nat)
    | Loading(attempt: nat, token: int)
    | Storing(attempt: nat, token: int, value: int)
    | Rechecking(attempt: nat, value: int)
    | Done(value: int)
    | Failed

  datatype Reply = Error | Cached(entry: Option<int>) | Token(token: int) | Loaded(value: int) | Written(written: bool)

  /** The move a reply makes. */
  function Next(pc: Pc, reply: Reply): Pc {
    match (pc, reply)
    case (Checking, Cached(Some(v))) => Done(v)
    case (Checking, Cached(None)) => Fencing(0)
    case (Fencing(a), Token(t)) => Loading(a, t)
    case (Loading(a, t), Loaded(v)) => Storing(a, t, v)
    case (Storing(a, t, v), Written(true)) => Done(v)
    case (Storing(a, t, v), Written(false)) => Rechecking(a, v)
    case (Rechecking(a, v), Cached(Some(u))) => Done(u)
    case (Rechecking(a, v), Cached(None)) => if a == 1 then Done(v) else Fencing(a + 1)
    case (Done(v), _) => Done(v)
    case _ => Failed
  }

  function Drive(pc: Pc, replies: nat -> Reply, n: nat): Pc {
    if n == 0 then pc else Next(Drive(pc, replies, n - 1), replies(n - 1))
  }

  predicate Going(pc: Pc) {
    !pc.Done? && !pc.Failed?
  }

  /** The replies of calls `from` to `upto` leave the flight going until the last one. */
  ghost predicate GoesOn(replies: nat -> Reply, from: nat, upto: nat) {
    forall k :: from <= k < upto ==> Going(Drive(Checking, replies, k))
  }

  /** One attempt: token, load, fenced write and, if that fails, another look at the cache. */
  method Attempt(replies: nat -> Reply, attempt: nat, start: nat) returns (out: Option<Pc>, calls: nat)
    requires attempt < 2 && Drive(Checking, replies, start) == Fencing(attempt)
    ensures start < calls <= start + 4 && GoesOn(replies, start, calls)
    ensures out.Some? ==> !Going(out.value) && out.value == Drive(Checking, replies, calls)
    ensures out.None? ==> attempt == 0 && calls == start + 4 && Drive(Checking, replies, calls) == Fencing(1)
  {
    calls := start + 1;
    var token := replies(start);
    if !token.Token? {
      return Some(Failed), calls;
    }
    assert Drive(Checking, replies, calls) == Loading(attempt, token.token);
    var value := replies(calls);
    calls := calls + 1;
    if !value.Loaded? {
      return Some(Failed), calls;
    }
    assert Drive(Checking, replies, calls) == Storing(attempt, token.token, value.value);
    var stored := replies(calls);
    calls := calls + 1;
    if !stored.Written? {
      return Some(Failed), calls;
    }
    if stored.written {
      return Some(Done(value.value)), calls;
    }
    assert Drive(Checking, replies, calls) == Rechecking(attempt, value.value);
    var again := replies(calls);
    calls := calls + 1;
    if !again.Cached? {
      return Some(Failed), calls;
    }
    if again.entry.Some? {
      return Some(Done(again.entry.value)), calls;
    }
    out := if attempt == 1 then Some(Done(value.value)) else None;
  }

  /** The two-attempt load loop over the replies of its calls. */
  method LoadWithFence(replies: nat -> Reply) returns (out: Pc, calls: nat)
    ensures !Going(out) && out == Drive(Checking, replies, calls)
    ensures GoesOn(replies, 0, calls)
    ensures 1 <= calls <= 9
  {
    var first := replies(0);
    calls := 1;
    if !first.Cached? {
      return Failed, calls;
    }
    if first.entry.Some? {
      return Done(first.entry.value), calls;
    }
    var attempt := 0;
    while attempt < 2
      invariant 0 <= attempt < 2
      invariant calls == 1 + 4 * attempt
      invariant Drive(Checking, replies, calls) == Fencing(attempt)
      invariant GoesOn(replies, 0, calls)
    {
      var result;
      result, calls := Attempt(replies, attempt, calls);
      if result.Some? {
        return result.value, calls;
      }
      attempt := attempt + 1;
    }
    assert false;
  }

  // ---------------------------------------------------------------------------
  // Everyone together
  // ---------------------------------------------------------------------------

  /** A flight is forgotten when singleflight drops its key; until then it can be joined. */
  datatype Flight = Flight(pc: Pc, forgotten: bool)

  /** `asked` is the era in which the request was made. */
  datatype Request = Missed(asked: nat) | Waiting(asked: nat, flight: int) | Answered(asked: nat, value: int)

  /** An era runs from one completed invalidation to the next and lists the database values
      seen in it. `born` gives the era in which a fence token was installed; `pending` are the
      writers whose invalidation has not completed. */
  datatype State = State(
    db: int,
    fence: Option<int>,
    cache: Option<int>,
    flights: map<int, Flight>,
    requests: map<int, Request>,
    eras: seq<seq<int>>,
    born: map<int, nat>,
    pending: set<int>)

  datatype Event =
    | Write(writer: int, value: int)
    | Invalidate(writer: int, token: int)
    | ExpireFence
    | ExpireCache
    | Ask(request: int)
    | Lead(request: int, flight: int)
    | Join(request: int, flight: int)
    | Advance(flight: int, token: int)
    | Abort(flight: int)
    | Forget(flight: int)
    | Receive(request: int)

  function Epoch(s: State): int {
    |s.eras| - 1
  }

  function Start(db: int): State {
    State(db, None, None, map[], map[], [[db]], map[], {})
  }

  /** Generated tokens and the names of new flights and requests are fresh; a flight is
      forgotten once it has ended. */
  ghost predicate Legal(s: State, e: Event) {
    match e
    case Invalidate(_, token) => token !in s.born
    case Ask(r) => r !in s.requests
    case Lead(r, f) => r in s.requests && s.requests[r].Missed? && f !in s.flights
    case Join(r, f) => r in s.requests && s.requests[r].Missed? && f in s.flights && !s.flights[f].forgotten && !s.flights[f].pc.Failed?
    case Advance(f, token) => f in s.flights && (s.flights[f].pc.Fencing? ==> token !in s.born)
    case Abort(f) => f in s.flights && Going(s.flights[f].pc)
    case Forget(f) => f in s.flights && !Going(s.flights[f].pc)
    case Receive(r) => r in s.requests && s.requests[r].Waiting? && s.requests[r].flight in s.flights && s.flights[s.requests[r].flight].pc.Done?
    case _ => true
  }

  /** What the flight's next call answers in this state; `candidate` is a generated token. */
  function Answer(s: State, pc: Pc, candidate: int): Reply {
    match pc
    case Checking => Cached(s.cache)
    case Fencing(_) => Token(InitializeFence(s.fence, candidate).value)
    case Loading(_, _) => Loaded(s.db)
    case Storing(_, token, value) => Written(SetIfMatches(s.fence, s.cache, token, value).1)
    case Rechecking(_, _) => Cached(s.cache)
    case _ => Error
  }

  function AdvanceFlight(s: State, f: int, candidate: int): State
    requires f in s.flights && |s.eras| > 0
  {
    var flight := s.flights[f];
    var t := s.(flights := s.flights[f := flight.(pc := Next(flight.pc, Answer(s, flight.pc, candidate)))]);
    match flight.pc
    case Fencing(_) =>
      t.(fence := InitializeFence(s.fence, candidate), born := if s.fence.None? then s.born[candidate := Epoch(s)] else s.born)
    case Storing(_, token, value) => t.(cache := SetIfMatches(s.fence, s.cache, token, value).0)
    case _ => t
  }

  ghost function Step(s: State, e: Event): State
    requires Legal(s, e) && |s.eras| > 0
  {
    match e
    case Write(w, v) => s.(db := v, eras := s.eras[Epoch(s) := s.eras[Epoch(s)] + [v]], pending := s.pending + {w})
    case Invalidate(w, token) =>
      var (fence, cache) := InvalidateKeys(token);
      s.(fence := fence, cache := cache, eras := s.eras + [[s.db]], born := s.born[token := Epoch(s) + 1], pending := s.pending - {w})
    case ExpireFence => s.(fence := None)
    case ExpireCache => s.(cache := None)
    case Ask(r) => s.(requests := s.requests[r := if s.cache.Some? then Answered(Epoch(s), s.cache.value) else Missed(Epoch(s))])
    case Lead(r, f) => s.(requests := s.requests[r := Waiting(s.requests[r].asked, f)], flights := s.flights[f := Flight(Checking, false)])
    case Join(r, f) => s.(requests := s.requests[r := Waiting(s.requests[r].asked, f)])
    case Advance(f, token) => AdvanceFlight(s, f, token)
    case Abort(f) => s.(flights := s.flights[f := s.flights[f].(pc := Failed)])
    case Forget(f) => s.(flights := s.flights[f := s.flights[f].(forgotten := true)])
    case Receive(r) => s.(requests := s.requests[r := Answered(s.requests[r].asked, s.flights[s.requests[r].flight].pc.value)])
  }

  // ---------------------------------------------------------------------------
  // What every step keeps
  // ---------------------------------------------------------------------------

  /** The database held v at some time in era k or later. */
  ghost predicate Since(eras: seq<seq<int>>, k: int, v: int) {
    exists j :: 0 <= k <= j < |eras| && v in eras[j]
  }

  ghost predicate ErasOk(s: State) {
    && |s.eras| > 0
    && |s.eras[Epoch(s)]| > 0
    && s.eras[Epoch(s)][|s.eras[Epoch(s)]| - 1] == s.db
    && (|s.eras[Epoch(s)]| > 1 ==> s.pending != {})
  }

  /** The fence token was installed in the current era, and the cached value read in it. */
  ghost predicate KeysOk(s: State)
    requires |s.eras| > 0
  {
    && (s.fence.Some? ==> s.fence.value in s.born && s.born[s.fence.value] == Epoch(s))
    && (s.cache.Some? ==> s.cache.value in s.eras[Epoch(s)])
    && (forall t :: t in s.born ==> s.born[t] <= Epoch(s))
  }

  /** A flight makes two attempts, and a loaded value was read after its token was installed. */
  ghost predicate PlaceOk(s: State, pc: Pc) {
    match pc
    case Fencing(a) => a <= 1
    case Loading(a, t) => a <= 1 && t in s.born
    case Storing(a, t, v) => a <= 1 && t in s.born && Since(s.eras, s.born[t], v)
    case Rechecking(a, _) => a <= 1
    case _ => true
  }

  ghost predicate RequestOk(s: State, r: Request) {
    r.asked < |s.eras| && (r.Waiting? ==> r.flight in s.flights)
  }

  ghost predicate Inv(s: State) {
    && ErasOk(s)
    && KeysOk(s)
    && (forall f :: f in s.flights ==> PlaceOk(s, s.flights[f].pc))
    && (forall r :: r in s.requests ==> RequestOk(s, s.requests[r]))
  }

  lemma StartInv(db: int)
    ensures Inv(Start(db))
  { }

  /** Eras are only ever added to, at the end. */
  ghost predicate Grown(s: State, s': State) {
    && |s.eras| <= |s'.eras|
    && (forall j :: 0 <= j < |s.eras| ==> s.eras[j] <= s'.eras[j])
    && (forall t :: t in s.born ==> t in s'.born && s'.born[t] == s.born[t])
    && (forall f :: f in s.flights ==> f in s'.flights)
  }

  lemma StepGrows(s: State, e: Event)
    requires Inv(s) && Legal(s, e)
    ensures Grown(s, Step(s, e))
  { }

  lemma SinceGrows(s: State, s': State, k: int, v: int)
    requires Grown(s, s') && Since(s.eras, k, v)
    ensures Since(s'.eras, k, v)
  { }

  /** A flight's own move keeps what its place promises. */
  lemma AdvanceOk(s: State, f: int, token: int)
    requires Inv(s) && Legal(s, Advance(f, token))
    ensures PlaceOk(AdvanceFlight(s, f, token), AdvanceFlight(s, f, token).flights[f].pc)
  {
    assert PlaceOk(s, s.flights[f].pc);
    if s.flights[f].pc.Loading? {
      assert s.db in s.eras[Epoch(s)];
    }
  }

  /** A write to the cache passes the fence only with a value of the current era. */
  lemma StoreOk(s: State, f: int, token: int)
    requires Inv(s) && Legal(s, Advance(f, token))
    ensures ErasOk(AdvanceFlight(s, f, token)) && KeysOk(AdvanceFlight(s, f, token))
  {
    assert PlaceOk(s, s.flights[f].pc);
  }

  lemma KeysStep(s: State, e: Event)
    requires Inv(s) && Legal(s, e)
    ensures ErasOk(Step(s, e)) && KeysOk(Step(s, e))
  {
    match e
    case Advance(f, token) => StoreOk(s, f, token);
    case Write(w, _) => assert w in Step(s, e).pending;
    case _ =>
  }

  lemma PlaceFrame(s: State, s': State, pc: Pc)
    requires Grown(s, s') && PlaceOk(s, pc)
    ensures PlaceOk(s', pc)
  {
    if pc.Storing? {
      SinceGrows(s, s', s.born[pc.token], pc.value);
    }
  }

  lemma FlightStep(s: State, e: Event, f: int)
    requires Inv(s) && Legal(s, e) && f in Step(s, e).flights
    ensures PlaceOk(Step(s, e), Step(s, e).flights[f].pc)
  {
    StepGrows(s, e);
    if e.Advance? && e.flight == f {
      AdvanceOk(s, f, e.token);
    } else if f in s.flights {
      PlaceFrame(s, Step(s, e), s.flights[f].pc);
    }
  }

  lemma RequestStep(s: State, e: Event, r: int)
    requires Inv(s) && Legal(s, e) && r in Step(s, e).requests
    ensures RequestOk(Step(s, e), Step(s, e).requests[r])
  {
    StepGrows(s, e);
    if r in s.requests {
      assert RequestOk(s, s.requests[r]);
    }
  }

  lemma StepKeeps(s: State, e: Event)
    requires Inv(s) && Legal(s, e)
    ensures Inv(Step(s, e))
  {
    KeysStep(s, e);
    forall f | f in Step(s, e).flights ensures PlaceOk(Step(s, e), Step(s, e).flights[f].pc) {
      FlightStep(s, e, f);
    }
    forall r | r in Step(s, e).requests ensures RequestOk(Step(s, e), Step(s, e).requests[r]) {
      RequestStep(s, e, r);
    }
  }

  ghost predicate LegalRun(s: State, es: seq<Event>)
    requires Inv(s)
    decreases |es|
  {
    es != [] ==> Legal(s, es[0]) && (StepKeeps(s, es[0]); LegalRun(Step(s, es[0]), es[1..]))
  }

  ghost function Run(s: State, es: seq<Event>): (t: State)
    requires Inv(s) && LegalRun(s, es)
    ensures Inv(t)
    decreases |es|
  {
    if es == [] then s
    else
      StepKeeps(s, es[0]);
      Run(Step(s, es[0]), es[1..])
  }

  lemma {:induction false} RunGrows(s: State, es: seq<Event>)
    requires Inv(s) && LegalRun(s, es)
    ensures Grown(s, Run(s, es))
    decreases |es|
  {
    if es != [] {
      StepKeeps(s, es[0]);
      StepGrows(s, es[0]);
      RunGrows(Step(s, es[0]), es[1..]);
    }
  }

  // ---------------------------------------------------------------------------
  // The cache agrees with the database
  // ---------------------------------------------------------------------------

  /** In every run a cached value was read after the last completed invalidation, and when
      every write has had its invalidation the entry is absent or equals the database. */
  lemma {:induction false} CacheAgrees(db: int, es: seq<Event>)
    requires Inv(Start(db)) && LegalRun(Start(db), es)
    ensures var t := Run(Start(db), es);
      && (t.cache.Some? ==> t.cache.value in t.eras[Epoch(t)])
      && (t.pending == {} ==> t.cache == None || t.cache == Some(t.db))
  {
    var t := Run(Start(db), es);
    if t.pending == {} {
      assert t.eras[Epoch(t)] == [t.db];
    }
  }

  /** A flight that lost its fence cannot write: once an invalidation has completed after it
      got its token, its value never reaches the cache, however keys expire. */
  lemma {:induction false} LostFenceNeverStores(s: State, es: seq<Event>, f: int, candidate: int)
    requires Inv(s) && LegalRun(s, es)
    requires f in s.flights && s.flights[f].pc.Storing?
    requires Epoch(Run(s, es)) > Epoch(s)
    requires Legal(Run(s, es), Advance(f, candidate)) && Run(s, es).flights[f].pc == s.flights[f].pc
    ensures AdvanceFlight(Run(s, es), f, candidate).cache == Run(s, es).cache
  {
    RunGrows(s, es);
    assert PlaceOk(s, s.flights[f].pc);
  }

  // ---------------------------------------------------------------------------
  // What a request is answered
  // ---------------------------------------------------------------------------

  /** The flight will end with this value unless it finds a newer one in the cache: it has
      ended, or has loaded for the second time. */
  function Settled(pc: Pc): Option<int> {
    match pc
    case Storing(a, _, v) => if a == 1 then Some(v) else None
    case Rechecking(a, v) => if a == 1 then Some(v) else None
    case Done(v) => Some(v)
    case _ => None
  }

  /** The flight may still end with a value the database has not held since era `asked`. */
  ghost predicate Outdated(s: State, pc: Pc, asked: nat) {
    Settled(pc).Some? && !Since(s.eras, asked, Settled(pc).value)
  }

  /** The request waits for a flight that is not outdated for it, or was answered with a value
      held since it was made. */
  ghost predicate Assured(s: State, r: int, asked: nat) {
    && r in s.requests
    && s.requests[r].asked == asked < |s.eras|
    && match s.requests[r]
       case Missed(_) => false
       case Waiting(_, f) => f in s.flights && !Outdated(s, s.flights[f].pc, asked)
       case Answered(_, v) => Since(s.eras, asked, v)
  }

  /** No move of a flight makes it outdated for a request that has been made. */
  lemma AdvanceStaysFresh(s: State, f: int, token: int, asked: nat)
    requires Inv(s) && Legal(s, Advance(f, token)) && asked < |s.eras| && !Outdated(s, s.flights[f].pc, asked)
    ensures !Outdated(AdvanceFlight(s, f, token), AdvanceFlight(s, f, token).flights[f].pc, asked)
  {
    var pc := s.flights[f].pc;
    assert PlaceOk(s, pc);
    var now := s.eras[Epoch(s)];
    assert s.db in now;
    if s.cache.Some? {
      assert s.cache.value in now;
    }
    if pc.Storing? && s.fence == Some(pc.token) {
      assert pc.value in now;
    }
  }

  lemma AssuredStep(s: State, e: Event, r: int, asked: nat)
    requires Inv(s) && Legal(s, e) && Assured(s, r, asked)
    ensures Assured(Step(s, e), r, asked)
  {
    var t := Step(s, e);
    StepGrows(s, e);
    if s.requests[r].Answered? {
      SinceGrows(s, t, asked, s.requests[r].value);
    } else {
      FlightStaysFresh(s, e, s.requests[r].flight, asked);
    }
  }

  lemma FlightStaysFresh(s: State, e: Event, f: int, asked: nat)
    requires Inv(s) && Legal(s, e) && f in s.flights && asked < |s.eras| && !Outdated(s, s.flights[f].pc, asked)
    ensures f in Step(s, e).flights && !Outdated(Step(s, e), Step(s, e).flights[f].pc, asked)
  {
    var pc := s.flights[f].pc;
    StepGrows(s, e);
    if e.Advance? && e.flight == f {
      AdvanceStaysFresh(s, f, e.token, asked);
    } else if Settled(pc).Some? {
      SinceGrows(s, Step(s, e), asked, Settled(pc).value);
    }
  }

  lemma {:induction false} AssuredRun(s: State, es: seq<Event>, r: int, asked: nat)
    requires Inv(s) && LegalRun(s, es) && Assured(s, r, asked)
    ensures Assured(Run(s, es), r, asked)
    decreases |es|
  {
    if es != [] {
      StepKeeps(s, es[0]);
      AssuredStep(s, es[0], r, asked);
      AssuredRun(Step(s, es[0]), es[1..], r, asked);
    }
  }

  /** A cache hit is a value the database held since the last completed invalidation. */
  lemma HitIsFresh(s: State, r: int)
    requires Inv(s) && Legal(s, Ask(r)) && s.cache.Some?
    ensures Assured(Step(s, Ask(r)), r, Epoch(s))
  {
    assert s.cache.value in s.eras[Epoch(s)];
  }

  /** A request that leads its flight is answered with a value the database held after the
      last invalidation completed before the request was made. */
  lemma {:induction false} LeaderIsFresh(s: State, r: int, f: int, es: seq<Event>)
    requires Inv(s) && Legal(s, Lead(r, f))
    requires Inv(Step(s, Lead(r, f))) && LegalRun(Step(s, Lead(r, f)), es)
    ensures Assured(Run(Step(s, Lead(r, f)), es), r, s.requests[r].asked)
  {
    assert RequestOk(s, s.requests[r]);
    AssuredRun(Step(s, Lead(r, f)), es, r, s.requests[r].asked);
  }

  /** The run ends with the request answered by a value the database has not held since. */
  ghost predicate EndsStale(s: State, es: seq<Event>, r: int, asked: nat) {
    && Inv(s) && LegalRun(s, es)
    && var t := Run(s, es);
       r in t.requests && t.requests[r].Answered? && !Since(t.eras, asked, t.requests[r].value)
  }

  /** Joining a flight assures the request, in every continuation, if and only if the flight
      is not outdated for it at that moment. */
  lemma JoinerIsFreshIff(s: State, r: int, f: int)
    requires Inv(s) && Legal(s, Join(r, f))
    ensures !Outdated(s, s.flights[f].pc, s.requests[r].asked) ==>
      forall es :: Inv(Step(s, Join(r, f))) && LegalRun(Step(s, Join(r, f)), es) ==> Assured(Run(Step(s, Join(r, f)), es), r, s.requests[r].asked)
    ensures Outdated(s, s.flights[f].pc, s.requests[r].asked) ==>
      exists es :: EndsStale(Step(s, Join(r, f)), es, r, s.requests[r].asked)
  {
    var asked := s.requests[r].asked;
    var t := Step(s, Join(r, f));
    assert RequestOk(s, s.requests[r]);
    StepKeeps(s, Join(r, f));
    if !Outdated(s, s.flights[f].pc, asked) {
      forall es | LegalRun(t, es) ensures Assured(Run(t, es), r, asked) {
        AssuredRun(t, es, r, asked);
      }
    } else {
      StaleContinuation(t, r, f, asked);
    }
  }

  /** From an outdated place: the fenced write fails, the cache key is gone, the flight ends. */
  lemma StaleContinuation(s: State, r: int, f: int, asked: nat)
    requires Inv(s) && r in s.requests && s.requests[r] == Waiting(asked, f) && f in s.flights && asked < |s.eras|
    requires Outdated(s, s.flights[f].pc, asked)
    ensures exists es :: EndsStale(s, es, r, asked)
  {
    match s.flights[f].pc
    case Done(v) => StaleDone(s, r, f, asked);
    case Rechecking(_, v) => StaleRechecking(s, r, f, asked);
    case Storing(_, t, v) =>
      assert PlaceOk(s, s.flights[f].pc);
      var u := AdvanceFlight(s, f, 0);
      assert s.fence != Some(t);
      StepKeeps(s, Advance(f, 0));
      StaleRechecking(u, r, f, asked);
      Before(s, Advance(f, 0), r, asked);
  }

  lemma StaleRechecking(s: State, r: int, f: int, asked: nat)
    requires Inv(s) && r in s.requests && s.requests[r] == Waiting(asked, f) && f in s.flights
    requires s.flights[f].pc.Rechecking? && Outdated(s, s.flights[f].pc, asked)
    ensures exists es :: EndsStale(s, es, r, asked)
  {
    var t := Step(s, ExpireCache);
    StepKeeps(s, ExpireCache);
    var u := AdvanceFlight(t, f, 0);
    StepKeeps(t, Advance(f, 0));
    StaleDone(u, r, f, asked);
    Before(t, Advance(f, 0), r, asked);
    Before(s, ExpireCache, r, asked);
  }

  lemma StaleDone(s: State, r: int, f: int, asked: nat)
    requires Inv(s) && r in s.requests && s.requests[r] == Waiting(asked, f) && f in s.flights
    requires s.flights[f].pc.Done? && Outdated(s, s.flights[f].pc, asked)
    ensures exists es :: EndsStale(s, es, r, asked)
  {
    StepKeeps(s, Receive(r));
    assert EndsStale(Step(s, Receive(r)), [], r, asked);
    Before(s, Receive(r), r, asked);
  }

  lemma Before(s: State, e: Event, r: int, asked: nat)
    requires Inv(s) && Legal(s, e) && exists es :: EndsStale(Step(s, e), es, r, asked)
    ensures exists es :: EndsStale(s, es, r, asked)
  {
    var es :| EndsStale(Step(s, e), es, r, asked);
    assert ([e] + es)[1..] == es;
    assert EndsStale(s, [e] + es, r, asked);
  }

  ghost predicate Quiet(s: State, k: int) {
    forall j, v :: 0 <= k <= j < |s.eras| && v in s.eras[j] ==> v == s.db
  }

  lemma {:induction false} QuietRun(s: State, es: seq<Event>, k: int)
    requires Inv(s) && LegalRun(s, es) && Quiet(s, k) && 0 <= k < |s.eras|
    requires forall e :: e in es ==> !e.Write?
    ensures Quiet(Run(s, es), k) && Run(s, es).db == s.db
    decreases |es|
  {
    if es != [] {
      StepKeeps(s, es[0]);
      assert es[0] in es;
      assert forall e :: e in es[1..] ==> e in es;
      QuietRun(Step(s, es[0]), es[1..], k);
    }
  }

  /** With every write invalidated before the request is made and none until it is answered,
      the leader is answered with the database's value. */
  lemma {:induction false} QuietLeaderReadsDatabase(s: State, r: int, f: int, es: seq<Event>)
    requires Inv(s) && s.pending == {} && Legal(s, Lead(r, f)) && s.requests[r].asked == Epoch(s)
    requires Inv(Step(s, Lead(r, f))) && LegalRun(Step(s, Lead(r, f)), es)
    requires forall e :: e in es ==> !e.Write?
    requires r in Run(Step(s, Lead(r, f)), es).requests && Run(Step(s, Lead(r, f)), es).requests[r].Answered?
    ensures Run(Step(s, Lead(r, f)), es).requests[r].value == Run(Step(s, Lead(r, f)), es).db == s.db
  {
    assert s.eras[Epoch(s)] == [s.db];
    LeaderIsFresh(s, r, f, es);
    QuietRun(Step(s, Lead(r, f)), es, Epoch(s));
  }

  /** A flight that finds nothing cached and is not disturbed stores the database's value and
      ends with it: the cache is filled, and stays agreed. */
  lemma UndisturbedFlightFills(s: State, f: int, token: int)
    requires Inv(s) && f in s.flights && s.flights[f].pc == Checking && s.cache.None? && token !in s.born
    ensures
      var loading := AdvanceFlight(AdvanceFlight(s, f, token), f, token);
      var stored := AdvanceFlight(AdvanceFlight(loading, f, token), f, token);
      && stored.flights[f].pc == Done(s.db)
      && stored.cache == Some(s.db) && stored.db == s.db
  {
    var fencing := AdvanceFlight(s, f, token);
    assert fencing == s.(flights := fencing.flights) && fencing.flights[f].pc == Fencing(0);
    var loading := AdvanceFlight(fencing, f, token);
    assert loading.flights[f].pc.Loading? && loading.fence == Some(loading.flights[f].pc.token) && loading.db == s.db;
    var storing := AdvanceFlight(loading, f, token);
    assert storing.flights[f].pc == Storing(0, loading.fence.value, s.db) && storing.fence == loading.fence;
  }


  // ---------------------------------------------------------------------------
  // A request that joins a flight in its second attempt
  // ---------------------------------------------------------------------------

  ghost predicate Leads(s: State, es: seq<Event>, t: State) {
    Inv(s) && LegalRun(s, es) && Run(s, es) == t
  }

  lemma {:induction false} Append(s: State, es: seq<Event>, t: State, e: Event, u: State)
    requires Leads(s, es, t) && Legal(t, e) && Step(t, e) == u
    ensures Leads(s, es + [e], u)
    decreases |es|
  {
    if es == [] {
      assert es + [e] == [e];
      StepKeeps(s, e);
    } else {
      StepKeeps(s, es[0]);
      Append(Step(s, es[0]), es[1..], t, e, u);
      assert (es + [e])[1..] == es[1..] + [e];
    }
  }

  ghost predicate Reachable(s: State) {
    exists es :: Leads(Start(0), es, s)
  }

  lemma Reach(s: State, e: Event, t: State)
    requires Reachable(s) && Legal(s, e) && |s.eras| > 0 && Step(s, e) == t
    ensures Reachable(t)
  {
    var es :| Leads(Start(0), es, s);
    Append(Start(0), es, s, e, t);
  }

  /** One flight, led by request 1, at some place; everything else as given. */
  function Alone(pc: Pc, fence: Option<int>, eras: seq<seq<int>>, born: map<int, nat>, db: int): State {
    State(db, fence, None, map[5 := Flight(pc, false)], map[1 := Waiting(0, 5)], eras, born, {})
  }

  lemma ReachFencing()
    ensures Reachable(Alone(Fencing(0), None, [[0]], map[], 0))
  {
    StartInv(0);
    assert Leads(Start(0), [], Start(0));
    var asked := Start(0).(requests := map[1 := Missed(0)]);
    Reach(Start(0), Ask(1), asked);
    Reach(asked, Lead(1, 5), Alone(Checking, None, [[0]], map[], 0));
    Reach(Alone(Checking, None, [[0]], map[], 0), Advance(5, 20), Alone(Fencing(0), None, [[0]], map[], 0));
  }

  lemma ReachLoading()
    ensures Reachable(Alone(Loading(0, 20), Some(20), [[0]], map[20 := 0], 0))
  {
    ReachFencing();
    Reach(Alone(Fencing(0), None, [[0]], map[], 0), Advance(5, 20), Alone(Loading(0, 20), Some(20), [[0]], map[20 := 0], 0));
  }

  lemma ReachStoring()
    ensures Reachable(Alone(Storing(0, 20, 0), Some(20), [[0]], map[20 := 0], 0))
  {
    ReachLoading();
    Reach(Alone(Loading(0, 20), Some(20), [[0]], map[20 := 0], 0), Advance(5, 20), Alone(Storing(0, 20, 0), Some(20), [[0]], map[20 := 0], 0));
  }

  /** A write and its invalidation. */
  lemma ReachReplaced(pc: Pc, token: int, fence: Option<int>, eras: seq<seq<int>>, last: seq<int>, born: map<int, nat>, db: int, v: int)
    requires Reachable(Alone(pc, fence, eras + [last], born, db)) && token !in born
    ensures Reachable(Alone(pc, Some(token), eras + [last + [v], [v]], born[token := |eras| + 1], v))
  {
    var s := Alone(pc, fence, eras + [last], born, db);
    var wrote := s.(db := v, eras := eras + [last + [v]], pending := {7});
    assert s.eras[|eras| := last + [v]] == wrote.eras;
    assert s.pending + {7} == {7};
    Reach(s, Write(7, v), wrote);
    assert wrote.eras + [[v]] == eras + [last + [v], [v]];
    assert wrote.pending - {7} == {};
    Reach(wrote, Invalidate(7, token), Alone(pc, Some(token), eras + [last + [v], [v]], born[token := |eras| + 1], v));
  }

  lemma ReachSecondAttempt()
    ensures Reachable(Alone(Storing(1, 22, 1), Some(22), [[0, 1], [1]], map[20 := 0, 22 := 1], 1))
  {
    var eras, born := [[0, 1], [1]], map[20 := 0, 22 := 1];
    ReachStoring();
    assert [] + [[0]] == [[0]] && [0] + [1] == [0, 1] && [] + [[0, 1], [1]] == eras;
    ReachReplaced(Storing(0, 20, 0), 22, Some(20), [], [0], map[20 := 0], 0, 1);
    assert map[20 := 0][22 := 1] == born;
    SecondAttempt(eras, born);
    SecondLoad(eras, born);
  }

  lemma FirstAttemptLost(eras: seq<seq<int>>, born: map<int, nat>)
    requires |eras| == 2
    requires Reachable(Alone(Storing(0, 20, 0), Some(22), eras, born, 1))
    ensures Reachable(Alone(Fencing(1), Some(22), eras, born, 1))
  {
    Reach(Alone(Storing(0, 20, 0), Some(22), eras, born, 1), Advance(5, 0), Alone(Rechecking(0, 0), Some(22), eras, born, 1));
    Reach(Alone(Rechecking(0, 0), Some(22), eras, born, 1), Advance(5, 0), Alone(Fencing(1), Some(22), eras, born, 1));
  }

  lemma SecondAttempt(eras: seq<seq<int>>, born: map<int, nat>)
    requires |eras| == 2 && born == map[20 := 0, 22 := 1]
    requires Reachable(Alone(Storing(0, 20, 0), Some(22), eras, born, 1))
    ensures Reachable(Alone(Loading(1, 22), Some(22), eras, born, 1))
  {
    FirstAttemptLost(eras, born);
    Reach(Alone(Fencing(1), Some(22), eras, born, 1), Advance(5, 30), Alone(Loading(1, 22), Some(22), eras, born, 1));
  }

  lemma SecondLoad(eras: seq<seq<int>>, born: map<int, nat>)
    requires |eras| == 2
    requires Reachable(Alone(Loading(1, 22), Some(22), eras, born, 1))
    ensures Reachable(Alone(Storing(1, 22, 1), Some(22), eras, born, 1))
  {
    Reach(Alone(Loading(1, 22), Some(22), eras, born, 1), Advance(5, 0), Alone(Storing(1, 22, 1), Some(22), eras, born, 1));
  }

  /** The flight has loaded 1 in its second attempt; 1 is replaced by 2 and invalidated. */
  function LostTwice(): State {
    Alone(Storing(1, 22, 1), Some(23), [[0, 1], [1, 2], [2]], map[20 := 0, 22 := 1, 23 := 2], 2)
  }

  lemma ReachLostTwice()
    ensures Reachable(LostTwice())
  {
    var eras, born := [[0, 1], [1]], map[20 := 0, 22 := 1];
    ReachSecondAttempt();
    assert [[0, 1]] + [[1]] == eras && [1] + [2] == [1, 2] && [[0, 1]] + [[1, 2], [2]] == [[0, 1], [1, 2], [2]];
    ReachReplaced(Storing(1, 22, 1), 23, Some(22), [[0, 1]], [1], born, 1, 2);
    assert born[23 := 2] == map[20 := 0, 22 := 1, 23 := 2];
  }

  lemma ReachLateAsk()
    ensures Reachable(LostTwice().(requests := map[1 := Waiting(0, 5), 2 := Missed(2)]))
  {
    ReachLostTwice();
    Reach(LostTwice(), Ask(2), LostTwice().(requests := map[1 := Waiting(0, 5), 2 := Missed(2)]));
  }

  /** In a reachable state a second request, made after the invalidation of 2, joins the flight
      that has lost its fence twice, and a continuation answers it with the older value. */
  lemma JoinerMayBeStale()
    ensures exists s: State, es: seq<Event> ::
      && Reachable(s) && Inv(s) && Legal(s, Join(2, 5)) && s.flights[5].pc.Storing?
      && EndsStale(Step(s, Join(2, 5)), es, 2, s.requests[2].asked)
  {
    ReachLateAsk();
    var s := LostTwice().(requests := map[1 := Waiting(0, 5), 2 := Missed(2)]);
    assert s.eras[2] == [2];
    assert !Since(s.eras, 2, 1);
    assert Outdated(s, s.flights[5].pc, 2);
    JoinerIsFreshIff(s, 2, 5);
    var es :| EndsStale(Step(s, Join(2, 5)), es, 2, 2);
  }
}
