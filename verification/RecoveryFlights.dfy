/** Per-post recovery flights: overlapping batches of posts share one recovery per post.

    Claiming and finishing each run under the mutex, so each is one atomic step; a flight's
    channel is open until it is closed, and its result is published before that. */
module RecoveryFlights {
  import opened Basics

  /** `result` is the error published for the post, 0 standing for none. `closes` counts how
      often the channel was closed. */
  datatype Flight = Flight(post: int, result: int, closes: nat)

  /** A worker recovers the posts its batch was first to claim. */
  datatype Worker = Worker(owned: seq<int>)

  datatype State = State(
    inflight: map<int, int>,
    flights: map<int, Flight>,
    workers: map<int, Worker>,
    calls: map<int, map<int, int>>,
    next: int)

  predicate Open(s: State, f: int) {
    f in s.flights && s.flights[f].closes == 0
  }

  // ---------------------------------------------------------------------------
  // Claiming and finishing, post by post
  // ---------------------------------------------------------------------------

  /** The claims of one batch so far. */
  datatype Claims = Claims(inflight: map<int, int>, flights: map<int, Flight>, calls: map<int, int>, owned: seq<int>, next: int)

  function ClaimOne(c: Claims, post: int): Claims {
    if post in c.inflight then c.(calls := c.calls[post := c.inflight[post]])
    else
      Claims(c.inflight[post := c.next], c.flights[c.next := Flight(post, 0, 0)], c.calls[post := c.next], c.owned + [post], c.next + 1)
  }

  function ClaimAll(c: Claims, posts: seq<int>): Claims {
    if posts == [] then c else ClaimOne(ClaimAll(c, posts[..|posts| - 1]), posts[|posts| - 1])
  }

  /** What a finishing worker publishes for a post: its own result, or the batch's error when
      the post was not completed. */
  function Published(results: map<int, int>, batchError: int, post: int): int {
    if post in results then results[post] else batchError
  }

  function CloseOne(s: State, f: int, result: int): State
    requires f in s.flights
  {
    s.(flights := s.flights[f := Flight(s.flights[f].post, result, s.flights[f].closes + 1)], inflight := s.inflight - {s.flights[f].post})
  }

  /** The shared table, each method under its mutex. */
  class Flights {
    var inflight: map<int, int>
    var flights: map<int, Flight>
    var workers: map<int, Worker>
    var calls: map<int, map<int, int>>
    var next: int

    ghost function View(): State
      reads this
    {
      State(inflight, flights, workers, calls, next)
    }

    constructor ()
      ensures View() == Start()
    {
      inflight, flights, workers, calls, next := map[], map[], map[], map[], 0;
    }

    /** Join the flights in the air and begin those that are missing. */
    method Claim(caller: int, posts: seq<int>)
      modifies this
      ensures View() == Step(old(View()), Recover(caller, posts))
    {
      var c := Claims(inflight, flights, map[], [], next);
      ghost var c0 := c;
      for i := 0 to |posts|
        invariant c == ClaimAll(c0, posts[..i])
      {
        assert posts[..i + 1][..i] == posts[..i];
        c := ClaimOne(c, posts[i]);
      }
      assert posts[..|posts|] == posts;
      inflight, flights, next := c.inflight, c.flights, c.next;
      calls := calls[caller := c.calls];
      if |c.owned| > 0 {
        workers := workers[caller := Worker(c.owned)];
      }
    }

    method CloseChannel(f: int, result: int)
      requires f in flights
      modifies this`flights, this`inflight
      ensures View() == CloseOne(old(View()), f, result)
    {
      var post := flights[f].post;
      flights := flights[f := Flight(post, result, flights[f].closes + 1)];
      inflight := inflight - {post};
    }

    /** Publish the results of a worker's posts and close their channels. */
    method Conclude(worker: int, results: map<int, int>, batchError: int)
      requires Inv(View()) && worker in workers
      modifies this
      ensures View() == Step(old(View()), Finish(worker, results, batchError))
    {
      ghost var s := View();
      assert WorkerOk(s, worker);
      var owned := workers[worker].owned;
      for i := 0 to |owned|
        invariant View() == FinishAll(s, owned[..i], s.calls[worker], results, batchError)
        invariant workers == s.workers && calls == s.calls
      {
        FinishEffect(s, worker, i, results, batchError);
        FinishNext(s, worker, i, results, batchError);
        CloseChannel(calls[worker][owned[i]], Published(results, batchError, owned[i]));
      }
      assert owned[..|owned|] == owned;
      workers := workers - {worker};
    }
  }

  // ---------------------------------------------------------------------------
  // Runs
  // ---------------------------------------------------------------------------

  datatype Event = Recover(caller: int, posts: seq<int>) | Finish(worker: int, results: map<int, int>, batchError: int)

  function Start(): State {
    State(map[], map[], map[], map[], 0)
  }

  function FinishAll(s: State, owned: seq<int>, calls: map<int, int>, results: map<int, int>, batchError: int): State {
    if owned == [] then s
    else
      var t := FinishAll(s, owned[..|owned| - 1], calls, results, batchError);
      var post := owned[|owned| - 1];
      if post in calls && calls[post] in t.flights then CloseOne(t, calls[post], Published(results, batchError, post)) else t
  }

  function Step(s: State, e: Event): State {
    match e
    case Recover(caller, posts) =>
      var c := ClaimAll(Claims(s.inflight, s.flights, map[], [], s.next), posts);
      State(c.inflight, c.flights, if |c.owned| > 0 then s.workers[caller := Worker(c.owned)] else s.workers, s.calls[caller := c.calls], c.next)
    case Finish(worker, results, batchError) =>
      if worker in s.workers && worker in s.calls then
        FinishAll(s, s.workers[worker].owned, s.calls[worker], results, batchError).(workers := s.workers - {worker})
      else s
  }

  // ---------------------------------------------------------------------------
  // What every step keeps
  // ---------------------------------------------------------------------------

  /** A post in flight has an open channel of its own. */
  ghost predicate InflightOk(s: State) {
    forall post :: post in s.inflight ==> Open(s, s.inflight[post]) && s.flights[s.inflight[post]].post == post
  }

  /** Every open channel is in flight, none was closed twice, and numbers are not reused. */
  ghost predicate FlightsOk(s: State) {
    forall f :: f in s.flights ==>
      && f < s.next
      && s.flights[f].closes <= 1
      && (s.flights[f].closes == 0 ==> s.flights[f].post in s.inflight && s.inflight[s.flights[f].post] == f)
  }

  ghost predicate Owns(s: State, w: int, post: int) {
    w in s.workers && post in s.workers[w].owned
  }

  /** A worker's posts are in flight, on the channels its batch made. */
  ghost predicate WorkerOk(s: State, w: int)
    requires w in s.workers
  {
    && w in s.calls
    && Distinct(s.workers[w].owned)
    && forall post :: post in s.workers[w].owned ==>
         post in s.calls[w] && post in s.inflight && s.inflight[post] == s.calls[w][post]
  }

  /** A caller waits for a post on a channel of that post. */
  ghost predicate Joined(s: State, c: int, post: int)
    requires c in s.calls && post in s.calls[c]
  {
    s.calls[c][post] in s.flights && s.flights[s.calls[c][post]].post == post
  }

  ghost predicate CallsOk(s: State) {
    forall c, post :: c in s.calls && post in s.calls[c] ==> Joined(s, c, post)
  }

  ghost predicate Inv(s: State) {
    && InflightOk(s)
    && FlightsOk(s)
    && CallsOk(s)
    && (forall w :: w in s.workers ==> WorkerOk(s, w))
    && (forall v, w, post :: Owns(s, v, post) && Owns(s, w, post) ==> v == w)
    && (forall post :: post in s.inflight ==> exists w :: Owns(s, w, post))
  }

  ghost predicate Legal(s: State, e: Event) {
    match e
    case Recover(caller, _) => caller !in s.calls
    case Finish(worker, _, _) => worker in s.workers
  }

  lemma StartInv()
    ensures Inv(Start())
  { }

  // ---------------------------------------------------------------------------
  // Claiming
  // ---------------------------------------------------------------------------

  function First(s: State): Claims {
    Claims(s.inflight, s.flights, map[], [], s.next)
  }

  /** What the claims add to the table of posts in flight ... */
  ghost predicate TableGrows(s: State, c: Claims) {
    && c.next >= s.next
    && Distinct(c.owned)
    && (forall post :: post in c.inflight <==> post in s.inflight || post in c.owned)
    && (forall post :: post in s.inflight ==> post !in c.owned && c.inflight[post] == s.inflight[post])
    && (forall post :: post in c.calls ==> post in c.inflight && c.calls[post] == c.inflight[post])
    && (forall post :: post in c.owned ==> post in c.calls)
  }

  /** ... and to the channels: a new open one for every owned post, and no other. */
  ghost predicate ChannelsGrow(s: State, c: Claims) {
    && (forall f :: f in c.flights ==> f < c.next)
    && (forall f :: f in s.flights ==> f in c.flights && c.flights[f] == s.flights[f])
    && (forall post :: post in c.owned ==>
          && post in c.inflight
          && s.next <= c.inflight[post]
          && c.inflight[post] in c.flights
          && c.flights[c.inflight[post]] == Flight(post, 0, 0))
    && (forall f :: f in c.flights && f !in s.flights ==>
          && c.flights[f].closes == 0
          && c.flights[f].post in c.owned
          && c.flights[f].post in c.inflight
          && c.inflight[c.flights[f].post] == f)
  }

  ghost predicate ClaimsOk(s: State, c: Claims) {
    TableGrows(s, c) && ChannelsGrow(s, c)
  }

  lemma TableGrowsOne(s: State, c: Claims, post: int)
    requires TableGrows(s, c)
    ensures TableGrows(s, ClaimOne(c, post))
  { }

  lemma ChannelsGrowOne(s: State, c: Claims, post: int)
    requires TableGrows(s, c) && ChannelsGrow(s, c)
    ensures ChannelsGrow(s, ClaimOne(c, post))
  {
    if post !in c.inflight {
      var d := ClaimOne(c, post);
      assert c.next !in c.flights;
      forall p | p in d.owned
        ensures p in d.inflight && s.next <= d.inflight[p] && d.inflight[p] in d.flights && d.flights[d.inflight[p]] == Flight(p, 0, 0)
      {
        assert p in c.owned || p == post;
      }
      forall f | f in d.flights && f !in s.flights
        ensures d.flights[f].closes == 0 && d.flights[f].post in d.owned && d.flights[f].post in d.inflight && d.inflight[d.flights[f].post] == f
      {
        if f != c.next {
          assert c.flights[f].post in c.owned;
        }
      }
    }
  }

  lemma ClaimOneOk(s: State, c: Claims, post: int)
    requires ClaimsOk(s, c)
    ensures ClaimsOk(s, ClaimOne(c, post))
  {
    TableGrowsOne(s, c, post);
    ChannelsGrowOne(s, c, post);
  }

  lemma {:induction false} ClaimAllOk(s: State, posts: seq<int>)
    requires Inv(s)
    ensures ClaimsOk(s, ClaimAll(First(s), posts))
    ensures forall post :: post in posts ==> post in ClaimAll(First(s), posts).calls
  {
    if posts != [] {
      var n := |posts| - 1;
      ClaimAllOk(s, posts[..n]);
      ClaimOneOk(s, ClaimAll(First(s), posts[..n]), posts[n]);
      assert posts == posts[..n] + [posts[n]];
    }
  }

  /** The state after a batch has made its claims. */
  ghost predicate Recovered(s: State, t: State, caller: int, c: Claims) {
    && t.inflight == c.inflight && t.flights == c.flights && t.next == c.next
    && t.calls == s.calls[caller := c.calls]
    && t.workers == if |c.owned| > 0 then s.workers[caller := Worker(c.owned)] else s.workers
  }

  lemma RecoverChannels(s: State, t: State, caller: int, c: Claims)
    requires Inv(s) && caller !in s.calls && ClaimsOk(s, c) && Recovered(s, t, caller, c)
    ensures InflightOk(t) && FlightsOk(t)
  { }

  lemma RecoverCalls(s: State, t: State, caller: int, c: Claims)
    requires Inv(s) && caller !in s.calls && ClaimsOk(s, c) && Recovered(s, t, caller, c) && InflightOk(t)
    ensures CallsOk(t)
    ensures forall w :: w in t.workers ==> WorkerOk(t, w)
  {
    forall d, post | d in t.calls && post in t.calls[d] ensures Joined(t, d, post) {
      if d == caller {
        assert Open(t, t.inflight[post]);
      } else {
        assert Joined(s, d, post) && t.calls[d] == s.calls[d];
        var f := s.calls[d][post];
        assert f in c.flights && c.flights[f] == s.flights[f];
      }
    }
    forall w | w in t.workers ensures WorkerOk(t, w) {
      if w in s.workers {
        assert WorkerOk(s, w);
      }
    }
  }

  lemma RecoverOwners(s: State, t: State, caller: int, c: Claims)
    requires Inv(s) && caller !in s.calls && ClaimsOk(s, c) && Recovered(s, t, caller, c)
    ensures forall post :: post in t.inflight ==> exists w :: Owns(t, w, post)
    ensures forall v, w, post :: Owns(t, v, post) && Owns(t, w, post) ==> v == w
  {
    assert caller in s.workers ==> WorkerOk(s, caller);
    forall post | post in t.inflight ensures exists w :: Owns(t, w, post) {
      if post in c.owned {
        assert Owns(t, caller, post);
      } else {
        var w :| Owns(s, w, post);
        assert Owns(t, w, post);
      }
    }
    forall v, w, post | Owns(t, v, post) && Owns(t, w, post) ensures v == w {
      OwnerOf(s, t, caller, c, v, post);
      OwnerOf(s, t, caller, c, w, post);
    }
  }

  lemma OwnerOf(s: State, t: State, caller: int, c: Claims, w: int, post: int)
    requires Inv(s) && caller !in s.calls && ClaimsOk(s, c) && Recovered(s, t, caller, c) && Owns(t, w, post)
    ensures if post in c.owned then w == caller else Owns(s, w, post)
  { }

  lemma RecoverKeeps(s: State, caller: int, posts: seq<int>)
    requires Inv(s) && caller !in s.calls
    ensures Inv(Step(s, Recover(caller, posts)))
  {
    var c := ClaimAll(First(s), posts);
    var t := Step(s, Recover(caller, posts));
    ClaimAllOk(s, posts);
    RecoverChannels(s, t, caller, c);
    RecoverCalls(s, t, caller, c);
    RecoverOwners(s, t, caller, c);
  }

  /** Who joins what and who works: the caller waits for exactly its posts; a post in flight is
      joined and stays with its worker, every other one gets a new channel and this caller as
      its worker. */
  lemma ClaimOutcome(s: State, caller: int, posts: seq<int>, post: int)
    requires Inv(s) && caller !in s.calls
    ensures var t := Step(s, Recover(caller, posts));
      && caller in t.calls
      && (post in t.calls[caller] <==> post in posts)
      && (post in posts ==> Open(t, t.calls[caller][post]) && post in t.inflight && t.calls[caller][post] == t.inflight[post])
      && (post in s.inflight ==> post in t.inflight && t.inflight[post] == s.inflight[post])
      && (post in t.inflight <==> post in s.inflight || post in posts)
      && (Owns(t, caller, post) <==> post in posts && post !in s.inflight)
      && (forall other :: other != caller ==> (Owns(t, other, post) <==> Owns(s, other, post)))
  {
    ClaimChannels(s, caller, posts, post);
    ClaimWorkers(s, caller, posts, post);
  }

  lemma ClaimChannels(s: State, caller: int, posts: seq<int>, post: int)
    requires Inv(s) && caller !in s.calls
    ensures var t := Step(s, Recover(caller, posts));
      && caller in t.calls
      && (post in t.calls[caller] <==> post in posts)
      && (post in posts ==> Open(t, t.calls[caller][post]) && post in t.inflight && t.calls[caller][post] == t.inflight[post])
      && (post in s.inflight ==> post in t.inflight && t.inflight[post] == s.inflight[post])
      && (post in t.inflight <==> post in s.inflight || post in posts)
  {
    RecoverKeeps(s, caller, posts);
    ClaimAllOk(s, posts);
    ClaimedOnly(s, posts, post);
  }

  lemma ClaimWorkers(s: State, caller: int, posts: seq<int>, post: int)
    requires Inv(s) && caller !in s.calls
    ensures var t := Step(s, Recover(caller, posts));
      && (Owns(t, caller, post) <==> post in posts && post !in s.inflight)
      && (forall other :: other != caller ==> (Owns(t, other, post) <==> Owns(s, other, post)))
  {
    ClaimedOnly(s, posts, post);
    assert caller !in s.workers;
  }

  lemma ClaimOneOnly(c: Claims, p: int, post: int)
    ensures post in ClaimOne(c, p).calls <==> post in c.calls || post == p
    ensures post in ClaimOne(c, p).owned <==> post in c.owned || (post == p && p !in c.inflight)
    ensures post in ClaimOne(c, p).inflight <==> post in c.inflight || post == p
  { }

  lemma {:induction false} ClaimedOnly(s: State, posts: seq<int>, post: int)
    ensures var c := ClaimAll(First(s), posts);
      && (post in c.calls <==> post in posts)
      && (post in c.inflight <==> post in s.inflight || post in posts)
      && (post in c.owned <==> post in posts && post !in s.inflight)
  {
    if posts != [] {
      var n := |posts| - 1;
      ClaimedOnly(s, posts[..n], post);
      ClaimOneOnly(ClaimAll(First(s), posts[..n]), posts[n], post);
      assert post in posts <==> post in posts[..n] || post == posts[n] by {
        assert posts == posts[..n] + [posts[n]];
      }
    }
  }

  // ---------------------------------------------------------------------------
  // Finishing
  // ---------------------------------------------------------------------------

  lemma OwnedFacts(s: State, w: int, i: nat)
    requires Inv(s) && w in s.workers && i < |s.workers[w].owned|
    ensures var post := s.workers[w].owned[i];
      && w in s.calls && post in s.calls[w] && post in s.inflight && s.inflight[post] == s.calls[w][post]
      && s.calls[w][post] in s.flights && s.flights[s.calls[w][post]].post == post && s.flights[s.calls[w][post]].closes == 0
      && post !in s.workers[w].owned[..i]
  { }

  /** The posts in `ended` are out of flight, each channel closed once with the published
      result, and no other channel is touched. */
  ghost predicate Ended(s: State, t: State, ended: seq<int>, results: map<int, int>, batchError: int) {
    && t.workers == s.workers && t.calls == s.calls && t.next == s.next
    && (forall post :: post in t.inflight <==> post in s.inflight && post !in ended)
    && (forall post :: post in t.inflight ==> t.inflight[post] == s.inflight[post])
    && (forall f :: f in t.flights <==> f in s.flights)
    && (forall f :: f in s.flights ==> t.flights[f] == EndedFlight(s.flights[f], ended, results, batchError))
  }

  function EndedFlight(f: Flight, ended: seq<int>, results: map<int, int>, batchError: int): Flight {
    if f.closes == 0 && f.post in ended then Flight(f.post, Published(results, batchError, f.post), 1) else f
  }

  lemma EndOne(s: State, t: State, ended: seq<int>, post: int, f: int, results: map<int, int>, batchError: int)
    requires Inv(s) && Ended(s, t, ended, results, batchError)
    requires post !in ended && post in s.inflight && s.inflight[post] == f && f in s.flights && s.flights[f].post == post && s.flights[f].closes == 0
    ensures f in t.flights
    ensures Ended(s, CloseOne(t, f, Published(results, batchError, post)), ended + [post], results, batchError)
  {
    var u := CloseOne(t, f, Published(results, batchError, post));
    EndedMember(ended, post);
    assert t.flights[f] == EndedFlight(s.flights[f], ended, results, batchError) == s.flights[f];
    forall g | g in s.flights ensures u.flights[g] == EndedFlight(s.flights[g], ended + [post], results, batchError) {
      assert t.flights[g] == EndedFlight(s.flights[g], ended, results, batchError);
      if g != f {
        OneFlightPerPost(s, f, g);
      }
    }
  }

  lemma EndedMember(ended: seq<int>, post: int)
    ensures forall p :: p in ended + [post] <==> p in ended || p == post
  { }

  lemma OneFlightPerPost(s: State, f: int, g: int)
    requires FlightsOk(s) && f in s.flights && g in s.flights && f != g && s.flights[f].closes == 0
    ensures s.flights[g].closes != 0 || s.flights[g].post != s.flights[f].post
  { }

  lemma {:induction false} FinishEffect(s: State, w: int, n: nat, results: map<int, int>, batchError: int)
    requires Inv(s) && w in s.workers && n <= |s.workers[w].owned| && w in s.calls
    ensures Ended(s, FinishAll(s, s.workers[w].owned[..n], s.calls[w], results, batchError), s.workers[w].owned[..n], results, batchError)
  {
    if n > 0 {
      FinishEffect(s, w, n - 1, results, batchError);
      FinishNext(s, w, n - 1, results, batchError);
    }
  }

  lemma {:induction false} FinishLast(s: State, posts: seq<int>, i: nat, calls: map<int, int>, results: map<int, int>, batchError: int)
    requires i < |posts| && posts[i] in calls && calls[posts[i]] in FinishAll(s, posts[..i], calls, results, batchError).flights
    ensures FinishAll(s, posts[..i + 1], calls, results, batchError)
         == CloseOne(FinishAll(s, posts[..i], calls, results, batchError), calls[posts[i]], Published(results, batchError, posts[i]))
  {
    assert posts[..i + 1][..i] == posts[..i] && posts[..i + 1][i] == posts[i];
  }

  lemma PrefixGrows(posts: seq<int>, i: nat)
    requires i < |posts|
    ensures posts[..i] + [posts[i]] == posts[..i + 1]
  { }

  lemma FinishOne(s: State, w: int, i: nat, t: State, results: map<int, int>, batchError: int)
    requires Inv(s) && w in s.workers && i < |s.workers[w].owned| && Ended(s, t, s.workers[w].owned[..i], results, batchError)
    ensures w in s.calls && s.workers[w].owned[i] in s.calls[w] && s.calls[w][s.workers[w].owned[i]] in t.flights
    ensures var post := s.workers[w].owned[i];
      Ended(s, CloseOne(t, s.calls[w][post], Published(results, batchError, post)), s.workers[w].owned[..i + 1], results, batchError)
  {
    var owned := s.workers[w].owned;
    OwnedFacts(s, w, i);
    EndOne(s, t, owned[..i], owned[i], s.calls[w][owned[i]], results, batchError);
    PrefixGrows(owned, i);
  }

  /** One more post of a worker that has finished the first i. */
  lemma {:induction false} FinishNext(s: State, w: int, i: nat, results: map<int, int>, batchError: int)
    requires Inv(s) && w in s.workers && i < |s.workers[w].owned| && w in s.calls
    requires Ended(s, FinishAll(s, s.workers[w].owned[..i], s.calls[w], results, batchError), s.workers[w].owned[..i], results, batchError)
    ensures s.workers[w].owned[i] in s.calls[w]
    ensures var owned := s.workers[w].owned; var t := FinishAll(s, owned[..i], s.calls[w], results, batchError); var f := s.calls[w][owned[i]];
      && f in t.flights
      && FinishAll(s, owned[..i + 1], s.calls[w], results, batchError) == CloseOne(t, f, Published(results, batchError, owned[i]))
      && Ended(s, CloseOne(t, f, Published(results, batchError, owned[i])), owned[..i + 1], results, batchError)
  {
    var owned := s.workers[w].owned;
    FinishOne(s, w, i, FinishAll(s, owned[..i], s.calls[w], results, batchError), results, batchError);
    FinishLast(s, owned, i, s.calls[w], results, batchError);
  }

  /** The state after a worker has finished. */
  ghost predicate Finished(s: State, t: State, w: int, results: map<int, int>, batchError: int)
    requires w in s.workers
  {
    Ended(s, t.(workers := s.workers), s.workers[w].owned, results, batchError) && t.workers == s.workers - {w}
  }

  lemma FinishIs(s: State, w: int, results: map<int, int>, batchError: int)
    requires Inv(s) && w in s.workers
    ensures Finished(s, Step(s, Finish(w, results, batchError)), w, results, batchError)
  {
    assert WorkerOk(s, w);
    var owned := s.workers[w].owned;
    FinishEffect(s, w, |owned|, results, batchError);
    assert owned[..|owned|] == owned;
    var t := FinishAll(s, owned, s.calls[w], results, batchError);
    assert Step(s, Finish(w, results, batchError)).(workers := s.workers) == t;
  }

  /** A worker that finishes takes exactly its own posts out of flight and closes exactly their
      channels, each with its own result, or with the batch's error when it has none. */
  lemma FinishOutcome(s: State, w: int, results: map<int, int>, batchError: int)
    requires Inv(s) && w in s.workers
    ensures var t := Step(s, Finish(w, results, batchError));
      && t.calls == s.calls && t.workers == s.workers - {w}
      && (forall post :: post in t.inflight <==> post in s.inflight && !Owns(s, w, post))
      && (forall post :: post in t.inflight ==> t.inflight[post] == s.inflight[post])
      && (forall f :: f in t.flights <==> f in s.flights)
      && (forall f :: f in s.flights ==>
            var post := s.flights[f].post;
            t.flights[f] == if Open(s, f) && Owns(s, w, post) then Flight(post, if post in results then results[post] else batchError, 1) else s.flights[f])
  {
    FinishIs(s, w, results, batchError);
    assert WorkerOk(s, w);
  }

  lemma FinishChannels(s: State, t: State, w: int, results: map<int, int>, batchError: int)
    requires Inv(s) && w in s.workers && Finished(s, t, w, results, batchError)
    ensures InflightOk(t) && FlightsOk(t) && CallsOk(t)
  {
    forall post | post in t.inflight ensures Open(t, t.inflight[post]) && t.flights[t.inflight[post]].post == post {
      assert Open(s, s.inflight[post]);
    }
    forall d, post | d in t.calls && post in t.calls[d] ensures Joined(t, d, post) {
      assert Joined(s, d, post);
      var f := s.calls[d][post];
      assert t.flights[f] == EndedFlight(s.flights[f], s.workers[w].owned, results, batchError);
    }
  }

  lemma FinishOwners(s: State, t: State, w: int, results: map<int, int>, batchError: int)
    requires Inv(s) && w in s.workers && Finished(s, t, w, results, batchError)
    ensures forall v :: v in t.workers ==> WorkerOk(t, v)
    ensures forall post :: post in t.inflight ==> exists v :: Owns(t, v, post)
    ensures forall u, v, post :: Owns(t, u, post) && Owns(t, v, post) ==> u == v
  {
    forall post | post in t.inflight ensures exists v :: Owns(t, v, post) {
      var v :| Owns(s, v, post);
      assert Owns(t, v, post);
    }
    forall v | v in t.workers ensures WorkerOk(t, v) {
      assert WorkerOk(s, v);
      forall post | post in t.workers[v].owned ensures post in t.inflight && t.inflight[post] == t.calls[v][post] {
        assert Owns(s, v, post) && (Owns(s, w, post) ==> v == w);
      }
    }
    forall u, v, post | Owns(t, u, post) && Owns(t, v, post) ensures u == v {
      assert Owns(s, u, post) && Owns(s, v, post);
    }
  }

  lemma FinishKeeps(s: State, w: int, results: map<int, int>, batchError: int)
    requires Inv(s) && w in s.workers
    ensures Inv(Step(s, Finish(w, results, batchError)))
  {
    FinishIs(s, w, results, batchError);
    FinishChannels(s, Step(s, Finish(w, results, batchError)), w, results, batchError);
    FinishOwners(s, Step(s, Finish(w, results, batchError)), w, results, batchError);
  }

  lemma StepKeeps(s: State, e: Event)
    requires Inv(s) && Legal(s, e)
    ensures Inv(Step(s, e))
  {
    match e
    case Recover(caller, posts) => RecoverKeeps(s, caller, posts);
    case Finish(w, results, batchError) => FinishKeeps(s, w, results, batchError);
  }

  function Run(s: State, es: seq<Event>): State
    decreases |es|
  {
    if es == [] then s else Run(Step(s, es[0]), es[1..])
  }

  ghost predicate LegalRun(s: State, es: seq<Event>)
    decreases |es|
  {
    es != [] ==> Legal(s, es[0]) && LegalRun(Step(s, es[0]), es[1..])
  }

  /** In every run at most one worker owns a post, every post in flight has an open channel,
      and no channel is closed twice. */
  lemma {:induction false} RunKeeps(s: State, es: seq<Event>)
    requires Inv(s) && LegalRun(s, es)
    ensures Inv(Run(s, es))
    decreases |es|
  {
    if es != [] {
      StepKeeps(s, es[0]);
      RunKeeps(Step(s, es[0]), es[1..]);
    }
  }

  // ---------------------------------------------------------------------------
  // What a waiter gets
  // ---------------------------------------------------------------------------

  /** Calls are kept, channels are kept, and a closed channel does not change. */
  ghost predicate Kept(s: State, t: State) {
    && (forall c :: c in s.calls ==> c in t.calls && t.calls[c] == s.calls[c])
    && (forall f :: f in s.flights ==> f in t.flights && t.flights[f].post == s.flights[f].post)
    && (forall f :: f in s.flights && s.flights[f].closes == 1 ==> t.flights[f] == s.flights[f])
  }

  lemma StepKept(s: State, e: Event)
    requires Inv(s) && Legal(s, e)
    ensures Kept(s, Step(s, e))
  {
    match e
    case Recover(caller, posts) => ClaimAllOk(s, posts);
    case Finish(w, results, batchError) =>
      FinishIs(s, w, results, batchError);
  }

  lemma {:induction false} RunKept(s: State, es: seq<Event>)
    requires Inv(s) && LegalRun(s, es)
    ensures Kept(s, Run(s, es))
    decreases |es|
  {
    if es != [] {
      StepKept(s, es[0]);
      StepKeeps(s, es[0]);
      RunKept(Step(s, es[0]), es[1..]);
    }
  }

  /** The worker of a post closes the channel a waiter joined, with the result it publishes
      for that post, and whenever the waiter looks later it finds that result. */
  lemma {:induction false} WaiterGetsFlightResult(s: State, caller: int, post: int, w: int, results: map<int, int>, batchError: int, es: seq<Event>)
    requires Inv(s) && caller in s.calls && post in s.calls[caller]
    requires Open(s, s.calls[caller][post]) && Owns(s, w, post)
    requires LegalRun(Step(s, Finish(w, results, batchError)), es)
    ensures var t := Run(Step(s, Finish(w, results, batchError)), es); var f := s.calls[caller][post];
      && caller in t.calls && post in t.calls[caller] && t.calls[caller][post] == f
      && f in t.flights && t.flights[f] == Flight(post, if post in results then results[post] else batchError, 1)
  {
    var u := Step(s, Finish(w, results, batchError));
    FinishIs(s, w, results, batchError);
    FinishKeeps(s, w, results, batchError);
    RunKept(u, es);
  }

  /** A waiter whose channel is still open waits for a worker that is still at work. */
  lemma OpenChannelHasWorker(s: State, caller: int, post: int)
    requires Inv(s) && caller in s.calls && post in s.calls[caller] && Open(s, s.calls[caller][post])
    ensures post in s.inflight && s.inflight[post] == s.calls[caller][post]
    ensures exists w :: Owns(s, w, post) && forall v :: Owns(s, v, post) ==> v == w
  {
    assert Joined(s, caller, post);
    var w :| Owns(s, w, post);
    forall v | Owns(s, v, post) ensures v == w { }
  }
}
