/** The click reservation of a recommendation opportunity, and the batch handler that takes,
    commits and releases it. */
module ClickLease {
  import opened Basics

  // ---------------------------------------------------------------------------
  // The lease key
  // ---------------------------------------------------------------------------

  const PENDING_SECONDS: int := 60

  datatype Lease = Pending(owner: int, expiresAt: int) | Committed(owner: int, expiresAt: int)

  datatype Reply = Acquired | AlreadyCommitted | Busy | Failed

  /** A key past its expiry counts as absent. */
  predicate Held(l: Option<Lease>, clock: int) {
    l.Some? && clock < l.value.expiresAt
  }

  predicate OwnedBy(l: Option<Lease>, event: int, clock: int) {
    Held(l, clock) && l.value.Pending? && l.value.owner == event
  }

  function AcquireScript(l: Option<Lease>, event: int, clock: int): (Option<Lease>, Reply) {
    if !Held(l, clock) then (Some(Pending(event, clock + PENDING_SECONDS)), Acquired)
    else (l, if l.value.Committed? then AlreadyCommitted else Busy)
  }

  function CommitScript(l: Option<Lease>, event: int, cooldown: int, clock: int): (Option<Lease>, bool) {
    if OwnedBy(l, event, clock) then (Some(Committed(event, clock + cooldown)), true) else (l, false)
  }

  function ReleaseScript(l: Option<Lease>, event: int, clock: int): Option<Lease> {
    if OwnedBy(l, event, clock) then None else l
  }

  /** The keys in Redis, one per opportunity; each method is one atomic script. */
  class ClickCooldown {
    var leases: map<int, Lease>
    const cooldown: int

    constructor (cooldown: int)
      ensures leases == map[] && this.cooldown == cooldown
    {
      leases, this.cooldown := map[], cooldown;
    }

    ghost function At(opp: int): Option<Lease>
      reads this
    {
      if opp in leases then Some(leases[opp]) else None
    }

    method Acquire(opp: int, event: int, clock: int) returns (reply: Reply)
      modifies this
      ensures (At(opp), reply) == AcquireScript(old(At(opp)), event, clock)
      ensures !Held(old(At(opp)), clock) ==> reply == Acquired && At(opp) == Some(Pending(event, clock + 60))
      ensures Held(old(At(opp)), clock) ==> At(opp) == old(At(opp)) && reply == if At(opp).value.Committed? then AlreadyCommitted else Busy
      ensures forall other :: other != opp ==> At(other) == old(At(other))
    {
      if opp !in leases || clock >= leases[opp].expiresAt {
        leases := leases[opp := Pending(event, clock + PENDING_SECONDS)];
        return Acquired;
      }
      reply := if leases[opp].Committed? then AlreadyCommitted else Busy;
    }

    method Commit(opp: int, event: int, clock: int) returns (ok: bool)
      modifies this
      ensures (At(opp), ok) == CommitScript(old(At(opp)), event, cooldown, clock)
      ensures ok <==> OwnedBy(old(At(opp)), event, clock)
      ensures At(opp) == if ok then Some(Committed(event, clock + cooldown)) else old(At(opp))
      ensures forall other :: other != opp ==> At(other) == old(At(other))
    {
      ok := opp in leases && clock < leases[opp].expiresAt && leases[opp].Pending? && leases[opp].owner == event;
      if ok {
        leases := leases[opp := Committed(event, clock + cooldown)];
      }
    }

    method Release(opp: int, event: int, clock: int)
      modifies this
      ensures At(opp) == ReleaseScript(old(At(opp)), event, clock)
      ensures At(opp) == if OwnedBy(old(At(opp)), event, clock) then None else old(At(opp))
      ensures forall other :: other != opp ==> At(other) == old(At(other))
    {
      if opp in leases && clock < leases[opp].expiresAt && leases[opp].Pending? && leases[opp].owner == event {
        leases := leases - {opp};
      }
    }
  }

  datatype Op = TryAcquire(event: int, clock: int) | TryCommit(event: int, clock: int) | TryRelease(event: int, clock: int)

  function Step(l: Option<Lease>, op: Op, cooldown: int): Option<Lease> {
    match op
    case TryAcquire(event, clock) => AcquireScript(l, event, clock).0
    case TryCommit(event, clock) => CommitScript(l, event, cooldown, clock).0
    case TryRelease(event, clock) => ReleaseScript(l, event, clock)
  }

  function Run(l: Option<Lease>, ops: seq<Op>, cooldown: int): Option<Lease>
    decreases |ops|
  {
    if ops == [] then l else Run(Step(l, ops[0], cooldown), ops[1..], cooldown)
  }

  /** Until it expires, a reservation is left alone by everything its owner does not commit or
      release, over any interleaving. */
  lemma {:induction false} OnlyOwnerEndsReservation(l: Option<Lease>, ops: seq<Op>, cooldown: int)
    requires l.Some? && l.value.Pending?
    requires forall op :: op in ops ==> op.clock < l.value.expiresAt
    requires forall op :: op in ops ==> op.TryAcquire? || op.event != l.value.owner
    ensures Run(l, ops, cooldown) == l
    decreases |ops|
  {
    if ops != [] {
      assert ops[0] in ops;
      assert forall op :: op in ops[1..] ==> op in ops;
      OnlyOwnerEndsReservation(l, ops[1..], cooldown);
    }
  }

  /** A committed opportunity stays committed until it expires, whoever tries what. */
  lemma {:induction false} CommittedStays(l: Option<Lease>, ops: seq<Op>, cooldown: int)
    requires l.Some? && l.value.Committed?
    requires forall op :: op in ops ==> op.clock < l.value.expiresAt
    ensures Run(l, ops, cooldown) == l
    decreases |ops|
  {
    if ops != [] {
      assert ops[0] in ops;
      assert forall op :: op in ops[1..] ==> op in ops;
      CommittedStays(l, ops[1..], cooldown);
    }
  }

  /** An owner whose reservation expired and was taken by another can neither commit nor
      release it, whatever happens until that other one is done or expires. */
  lemma {:induction false} LostOwnerIsPowerless(l: Option<Lease>, ops: seq<Op>, event: int, clock: int, cooldown: int)
    requires l.Some? && l.value.Pending? && l.value.owner != event
    requires forall op :: op in ops ==> op.clock < l.value.expiresAt
    requires forall op :: op in ops ==> op.TryAcquire? || op.event != l.value.owner
    ensures CommitScript(Run(l, ops, cooldown), event, cooldown, clock) == (l, false)
    ensures ReleaseScript(Run(l, ops, cooldown), event, clock) == l
  {
    OnlyOwnerEndsReservation(l, ops, cooldown);
  }

  // ---------------------------------------------------------------------------
  // The batch handler
  // ---------------------------------------------------------------------------

  /** A validated event; a click is a click on one opportunity. */
  datatype Event = Event(id: int, click: bool, opp: int)

  datatype Input = Malformed | Valid(event: Event)

  datatype Status = Unset | Accepted | Duplicate | Rejected

  datatype Call = Acquire(event: Event, reply: Reply) | Release(event: Event) | Publish(events: seq<Event>, ok: bool) | Commit(event: Event)

  datatype Exit = Unavailable | RetryBatch | Answered

  datatype Response = Response(statuses: seq<Status>, accepted: nat, duplicates: nat, rejected: nat)

  function Clicks(es: seq<Event>): seq<Event> {
    if es == [] then []
    else Clicks(es[..|es| - 1]) + (if es[|es| - 1].click then [es[|es| - 1]] else [])
  }

  function Acquires(calls: seq<Call>): seq<Event> {
    if calls == [] then []
    else
      var last := calls[|calls| - 1];
      Acquires(calls[..|calls| - 1]) + (if last.Acquire? && last.reply.Acquired? then [last.event] else [])
  }

  function Releases(es: seq<Event>): (calls: seq<Call>)
    ensures |calls| == |es| && forall i :: 0 <= i < |es| ==> calls[i] == Release(es[i])
  {
    seq(|es|, i requires 0 <= i < |es| => Release(es[i]))
  }

  function Commits(es: seq<Event>): (calls: seq<Call>)
    ensures |calls| == |es| && forall i :: 0 <= i < |es| ==> calls[i] == Commit(es[i])
  {
    seq(|es|, i requires 0 <= i < |es| => Commit(es[i]))
  }

  ghost predicate OnlyAcquires(calls: seq<Call>) {
    forall i :: 0 <= i < |calls| ==> calls[i].Acquire?
  }

  /** No opportunity is asked for twice. */
  ghost predicate AskedOnce(calls: seq<Call>) {
    forall i, j :: 0 <= i < j < |calls| && calls[i].Acquire? && calls[j].Acquire? ==> calls[i].event.opp != calls[j].event.opp
  }

  ghost predicate DistinctOpps(es: seq<Event>) {
    forall i, j :: 0 <= i < j < |es| && es[i].click && es[j].click ==> es[i].opp != es[j].opp
  }

  /** The events at the positions that are not dropped, in order. */
  function Kept(es: seq<Event>, dropped: set<int>): seq<Event> {
    if es == [] then []
    else Kept(es[..|es| - 1], dropped) + (if |es| - 1 in dropped then [] else [es[|es| - 1]])
  }

  lemma {:induction false} KeptBeyond(es: seq<Event>, dropped: set<int>, k: int)
    requires k >= |es|
    ensures Kept(es, dropped + {k}) == Kept(es, dropped)
  {
    if es != [] {
      KeptBeyond(es[..|es| - 1], dropped, k);
    }
  }

  lemma KeptNext(es: seq<Event>, n: nat, dropped: set<int>)
    requires n < |es|
    ensures Kept(es[..n + 1], dropped) == Kept(es[..n], dropped) + (if n in dropped then [] else [es[n]])
  {
    assert es[..n + 1][..n] == es[..n];
  }

  function ValidEvents(inputs: seq<Input>): seq<Event> {
    if inputs == [] then []
    else
      var n := |inputs| - 1;
      ValidEvents(inputs[..n]) + (if inputs[n].Valid? then [inputs[n].event] else [])
  }

  function ValidIndexes(inputs: seq<Input>): seq<int> {
    if inputs == [] then []
    else
      var n := |inputs| - 1;
      ValidIndexes(inputs[..n]) + (if inputs[n].Valid? then [n] else [])
  }

  /** Position k of the valid events stands at index indexes[k] of the inputs. */
  ghost predicate Placed(inputs: seq<Input>, events: seq<Event>, indexes: seq<int>) {
    && |events| == |indexes|
    && (forall k :: 0 <= k < |indexes| ==> 0 <= indexes[k] < |inputs| && inputs[indexes[k]] == Valid(events[k]))
    && (forall i, j :: 0 <= i < j < |indexes| ==> indexes[i] < indexes[j])
    && (forall i :: 0 <= i < |inputs| && inputs[i].Valid? ==> i in indexes)
  }

  lemma ValidFront(inputs: seq<Input>)
    requires inputs != []
    ensures var n := |inputs| - 1; var front := inputs[..n];
      if inputs[n].Valid? then
        ValidEvents(inputs) == ValidEvents(front) + [inputs[n].event] && ValidIndexes(inputs) == ValidIndexes(front) + [n]
      else
        ValidEvents(inputs) == ValidEvents(front) && ValidIndexes(inputs) == ValidIndexes(front)
  { }

  lemma {:induction false} ValidPlaced(inputs: seq<Input>)
    ensures Placed(inputs, ValidEvents(inputs), ValidIndexes(inputs))
  {
    if inputs != [] {
      var n := |inputs| - 1;
      ValidPlaced(inputs[..n]);
      ValidFront(inputs);
      PlacedNext(inputs, ValidEvents(inputs[..n]), ValidIndexes(inputs[..n]));
    }
  }

  lemma PlacedNext(inputs: seq<Input>, events: seq<Event>, indexes: seq<int>)
    requires inputs != [] && Placed(inputs[..|inputs| - 1], events, indexes)
    ensures var n := |inputs| - 1;
      if inputs[n].Valid? then Placed(inputs, events + [inputs[n].event], indexes + [n]) else Placed(inputs, events, indexes)
  {
    var n := |inputs| - 1;
    if inputs[n].Valid? {
      assert (indexes + [n])[|indexes|] == n;
    }
    forall i | 0 <= i < n && inputs[i].Valid? ensures i in indexes {
      assert inputs[..n][i].Valid?;
    }
  }

  /** The events of a batch that are valid, and where they stood. */
  method Validate(inputs: seq<Input>) returns (events: seq<Event>, indexes: seq<int>)
    ensures Placed(inputs, events, indexes)
    ensures events == ValidEvents(inputs) && indexes == ValidIndexes(inputs)
  {
    events, indexes := [], [];
    for i := 0 to |inputs|
      invariant events == ValidEvents(inputs[..i]) && indexes == ValidIndexes(inputs[..i])
    {
      assert inputs[..i + 1][..i] == inputs[..i];
      if inputs[i].Valid? {
        events, indexes := events + [inputs[i].event], indexes + [i];
      }
    }
    assert inputs[..|inputs|] == inputs;
    ValidPlaced(inputs);
  }

  /** What the reservation loop carries along. `slots` are the positions of the events to
      publish, `duplicates` those of the events that are not. */
  datatype Work = Work(publish: seq<Event>, slots: seq<int>, duplicates: set<int>, reservations: seq<Event>, seen: set<int>, trace: seq<Call>)

  ghost predicate CallsOk(w: Work) {
    && OnlyAcquires(w.trace)
    && Acquires(w.trace) == w.reservations
    && AskedOnce(w.trace)
    && (forall i :: 0 <= i < |w.trace| ==> w.trace[i].event.opp in w.seen)
  }

  /** So far every reservation was decided. */
  ghost predicate Decided(calls: seq<Call>) {
    forall i :: 0 <= i < |calls| && calls[i].Acquire? ==> calls[i].reply.Acquired? || calls[i].reply.AlreadyCommitted?
  }

  /** Why an event is not published: its opportunity was committed before, or was clicked
      earlier in the batch. */
  ghost predicate Justified(events: seq<Event>, k: int, trace: seq<Call>)
    requires 0 <= k < |events|
  {
    || Acquire(events[k], AlreadyCommitted) in trace
    || exists j :: 0 <= j < k && events[j].click && events[j].opp == events[k].opp
  }

  ghost predicate DropsOk(events: seq<Event>, n: int, w: Work) {
    && Decided(w.trace)
    && (forall k :: k in w.duplicates ==> 0 <= k < n <= |events| && Justified(events, k, w.trace))
    && (forall opp :: opp in w.seen ==> exists j :: 0 <= j < n <= |events| && events[j].click && events[j].opp == opp)
  }

  ghost predicate SlotsOk(events: seq<Event>, n: int, w: Work) {
    && 0 <= n <= |events|
    && |w.publish| == |w.slots|
    && (forall k :: 0 <= k < |w.slots| ==> 0 <= w.slots[k] < n && events[w.slots[k]] == w.publish[k])
    && (forall k :: 0 <= k < n ==> (k in w.slots <==> k !in w.duplicates))
    && (forall k :: k in w.duplicates ==> 0 <= k < n && events[k].click)
    && w.publish == Kept(events[..n], w.duplicates)
  }

  /** Every click to be published is reserved, and no opportunity twice. */
  ghost predicate ClicksOk(w: Work) {
    && Clicks(w.publish) == w.reservations
    && (forall k :: 0 <= k < |w.publish| && w.publish[k].click ==> w.publish[k].opp in w.seen)
    && DistinctOpps(w.publish)
  }

  ghost predicate ReservedTo(events: seq<Event>, n: int, w: Work) {
    CallsOk(w) && SlotsOk(events, n, w) && ClicksOk(w) && DropsOk(events, n, w)
  }

  function Called(w: Work, e: Event, reply: Reply): Work {
    w.(trace := w.trace + [Acquire(e, reply)], seen := w.seen + {e.opp}, reservations := if reply.Acquired? then w.reservations + [e] else w.reservations)
  }

  function Taken(w: Work, e: Event, n: int): Work {
    w.(publish := w.publish + [e], slots := w.slots + [n])
  }

  function Dropped(w: Work, n: int): Work {
    w.(duplicates := w.duplicates + {n})
  }

  lemma CalledOk(w: Work, e: Event, reply: Reply)
    requires CallsOk(w) && e.opp !in w.seen
    ensures CallsOk(Called(w, e, reply))
  {
    var calls := w.trace + [Acquire(e, reply)];
    assert calls[..|w.trace|] == w.trace && calls[|w.trace|] == Acquire(e, reply);
    assert Acquires(calls) == Called(w, e, reply).reservations;
    forall i, j | 0 <= i < j < |calls| ensures calls[i].Acquire? && calls[i].event.opp in w.seen && calls[i].event.opp != calls[j].event.opp {
      assert calls[i] == w.trace[i];
    }
  }

  lemma SlotTaken(events: seq<Event>, n: int, w: Work)
    requires SlotsOk(events, n, w) && n < |events|
    ensures SlotsOk(events, n + 1, Taken(w, events[n], n))
  {
    KeptNext(events, n, w.duplicates);
  }

  lemma SlotDropped(events: seq<Event>, n: int, w: Work)
    requires SlotsOk(events, n, w) && n < |events| && events[n].click
    ensures SlotsOk(events, n + 1, Dropped(w, n))
  {
    KeptNext(events, n, w.duplicates + {n});
    KeptBeyond(events[..n], w.duplicates, n);
  }

  lemma ClickTaken(w: Work, e: Event, n: int)
    requires ClicksOk(w) && (e.click ==> e.opp !in w.seen)
    ensures e.click ==> ClicksOk(Taken(Called(w, e, Acquired), e, n))
    ensures !e.click ==> ClicksOk(Taken(w, e, n))
  { }

  lemma DropTaken(events: seq<Event>, n: int, w: Work)
    requires DropsOk(events, n, w) && 0 <= n < |events|
    ensures events[n].click ==> DropsOk(events, n + 1, Taken(Called(w, events[n], Acquired), events[n], n))
    ensures !events[n].click ==> DropsOk(events, n + 1, Taken(w, events[n], n))
  {
    JustifiedStays(events, n, w, Acquire(events[n], Acquired));
    SeenStays(events, n, w);
  }

  lemma DropDropped(events: seq<Event>, n: int, w: Work)
    requires DropsOk(events, n, w) && 0 <= n < |events| && events[n].click
    ensures events[n].opp in w.seen ==> DropsOk(events, n + 1, Dropped(w, n))
    ensures DropsOk(events, n + 1, Dropped(Called(w, events[n], AlreadyCommitted), n))
  {
    JustifiedStays(events, n, w, Acquire(events[n], AlreadyCommitted));
    SeenStays(events, n, w);
    var calls := w.trace + [Acquire(events[n], AlreadyCommitted)];
    assert calls[|w.trace|] in calls;
  }

  lemma JustifiedStays(events: seq<Event>, n: int, w: Work, call: Call)
    requires DropsOk(events, n, w) && 0 <= n < |events|
    ensures forall k :: k in w.duplicates ==> 0 <= k < n && Justified(events, k, w.trace + [call])
  {
    forall k | k in w.duplicates ensures 0 <= k < n && Justified(events, k, w.trace + [call]) {
      assert Justified(events, k, w.trace);
    }
  }

  lemma SeenStays(events: seq<Event>, n: int, w: Work)
    requires DropsOk(events, n, w) && 0 <= n < |events|
    ensures forall opp :: opp in w.seen ==> exists j :: 0 <= j < n + 1 && events[j].click && events[j].opp == opp
  {
    forall opp | opp in w.seen ensures exists j :: 0 <= j < n + 1 && events[j].click && events[j].opp == opp {
      var j :| 0 <= j < n && events[j].click && events[j].opp == opp;
    }
  }

  /** One valid event: taken, dropped as a duplicate, or undecidable. */
  method Consider(events: seq<Event>, n: int, w: Work, reply: Reply) returns (exit: Exit, w': Work)
    requires ReservedTo(events, n, w) && n < |events|
    ensures CallsOk(w') && Because(exit, w'.trace)
    ensures exit.Answered? ==> ReservedTo(events, n + 1, w')
  {
    var e := events[n];
    exit := Answered;
    if !e.click {
      SlotTaken(events, n, w);
      ClickTaken(w, e, n);
      DropTaken(events, n, w);
      w' := Taken(w, e, n);
    } else if e.opp in w.seen {
      SlotDropped(events, n, w);
      DropDropped(events, n, w);
      w' := Dropped(w, n);
    } else {
      CalledOk(w, e, reply);
      w' := Called(w, e, reply);
      match reply {
        case Acquired =>
          SlotTaken(events, n, w');
          ClickTaken(w, e, n);
          DropTaken(events, n, w);
          w' := Taken(w', e, n);
        case AlreadyCommitted =>
          SlotDropped(events, n, w');
          DropDropped(events, n, w);
          w' := Dropped(w', n);
        case Busy => exit := RetryBatch;
        case Failed => exit := Unavailable;
      }
    }
  }

  /** The reservation loop stops early only at a reply that is pending or failed, and then
      there. */
  ghost predicate Because(exit: Exit, calls: seq<Call>) {
    match exit
    case Answered => Decided(calls)
    case RetryBatch => calls != [] && Decided(calls[..|calls| - 1]) && calls[|calls| - 1].Acquire? && calls[|calls| - 1].reply.Busy?
    case Unavailable => calls != [] && Decided(calls[..|calls| - 1]) && calls[|calls| - 1].Acquire? && calls[|calls| - 1].reply.Failed?
  }

  /** The reservation loop. It stops at the first click that cannot be decided; otherwise it
      publishes every event that is not a duplicate, once and in order. */
  method Reserve(events: seq<Event>, replies: nat -> Reply) returns (exit: Exit, w: Work)
    ensures CallsOk(w) && Because(exit, w.trace)
    ensures exit.Answered? ==> ReservedTo(events, |events|, w) && w.publish == Kept(events, w.duplicates)
  {
    w := Work([], [], {}, [], {}, []);
    for n := 0 to |events|
      invariant ReservedTo(events, n, w)
    {
      exit, w := Consider(events, n, w, replies(n));
      if !exit.Answered? {
        return;
      }
    }
    assert events[..|events|] == events;
    exit := Answered;
  }

  // ---------------------------------------------------------------------------
  // The answer
  // ---------------------------------------------------------------------------

  function CountStatus(statuses: seq<Status>, s: Status): nat {
    if statuses == [] then 0
    else CountStatus(statuses[..|statuses| - 1], s) + (if statuses[|statuses| - 1] == s then 1 else 0)
  }

  /** Whatever is neither accepted nor a duplicate is rejected, and the three counts are the
      numbers of each. */
  method CompleteResponse(marked: seq<Status>) returns (response: Response)
    ensures |response.statuses| == |marked|
    ensures forall i :: 0 <= i < |marked| ==>
      response.statuses[i] == (if marked[i].Accepted? || marked[i].Duplicate? then marked[i] else Rejected)
    ensures response.accepted == CountStatus(response.statuses, Accepted)
    ensures response.duplicates == CountStatus(response.statuses, Duplicate)
    ensures response.rejected == CountStatus(response.statuses, Rejected)
    ensures response.accepted + response.duplicates + response.rejected == |marked|
  {
    var statuses: seq<Status> := [];
    var accepted, duplicates, rejected := 0, 0, 0;
    for i := 0 to |marked|
      invariant |statuses| == i
      invariant forall k :: 0 <= k < i ==> statuses[k] == (if marked[k].Accepted? || marked[k].Duplicate? then marked[k] else Rejected)
      invariant accepted == CountStatus(statuses, Accepted)
      invariant duplicates == CountStatus(statuses, Duplicate)
      invariant rejected == CountStatus(statuses, Rejected)
      invariant accepted + duplicates + rejected == i
    {
      var status := if marked[i].Accepted? || marked[i].Duplicate? then marked[i] else Rejected;
      assert (statuses + [status])[..i] == statuses;
      statuses := statuses + [status];
      match status {
        case Accepted => accepted := accepted + 1;
        case Duplicate => duplicates := duplicates + 1;
        case _ => rejected := rejected + 1;
      }
    }
    response := Response(statuses, accepted, duplicates, rejected);
  }

  /** The status of each input: accepted when published, duplicate when dropped. */
  ghost predicate MarkedOk(inputs: seq<Input>, indexes: seq<int>, w: Work, published: bool, marked: seq<Status>) {
    && |marked| == |inputs|
    && (forall k :: 0 <= k < |indexes| && k in w.duplicates ==> 0 <= indexes[k] < |marked| && marked[indexes[k]] == Duplicate)
    && (forall k :: 0 <= k < |indexes| && k in w.slots ==> 0 <= indexes[k] < |marked| && marked[indexes[k]] == (if published then Accepted else Unset))
    && (forall i :: 0 <= i < |inputs| && inputs[i].Malformed? ==> marked[i] == Unset)
  }

  method Mark(inputs: seq<Input>, indexes: seq<int>, w: Work, published: bool) returns (marked: seq<Status>)
    requires forall k :: 0 <= k < |indexes| ==> 0 <= indexes[k] < |inputs| && inputs[indexes[k]].Valid?
    requires forall i, j :: 0 <= i < j < |indexes| ==> indexes[i] < indexes[j]
    requires forall k :: 0 <= k < |indexes| ==> (k in w.slots <==> k !in w.duplicates)
    ensures MarkedOk(inputs, indexes, w, published, marked)
  {
    marked := seq(|inputs|, i => Unset);
    for k := 0 to |indexes|
      invariant |marked| == |inputs|
      invariant forall m :: 0 <= m < k && m in w.duplicates ==> marked[indexes[m]] == Duplicate
      invariant forall m :: 0 <= m < k && m in w.slots ==> marked[indexes[m]] == (if published then Accepted else Unset)
      invariant forall i :: 0 <= i < |inputs| && inputs[i].Malformed? ==> marked[i] == Unset
    {
      if k in w.duplicates {
        marked := marked[indexes[k] := Duplicate];
      } else if published {
        marked := marked[indexes[k] := Accepted];
      } else {
        marked := marked[indexes[k] := Unset];
      }
    }
  }

  /** How a batch ends, by its calls: `acquires` came first and reserved the events that
      Acquires lists, no opportunity asked for twice. A batch fails only for a pending or failed reservation or a publisher
      that is missing or fails, and every failure releases exactly those reservations. An
      answer either published nothing and reserved nothing, or published one click for each
      reservation, no opportunity twice, and then tried to commit exactly those. */
  ghost predicate EndsWell(exit: Exit, acquires: seq<Call>, published: seq<Event>, trace: seq<Call>, canPublish: bool) {
    && OnlyAcquires(acquires) && AskedOnce(acquires)
    && var reserved := Acquires(acquires);
       if !exit.Answered? then
         || (Because(exit, acquires) && trace == acquires + Releases(reserved))
         || (exit.Unavailable? && !canPublish && Decided(acquires) && trace == acquires + Releases(reserved))
         || (exit.Unavailable? && !canPublish && Decided(acquires) && Clicks(published) == reserved && DistinctOpps(published)
             && trace == acquires + [Publish(published, false)] + Releases(reserved))
       else
         && Decided(acquires)
         && if published == [] then reserved == [] && trace == acquires
            else
              && canPublish
              && Clicks(published) == reserved
              && DistinctOpps(published)
              && trace == acquires + [Publish(published, true)] + Commits(reserved)
  }

  /** The calls of a handled batch. */
  ghost predicate Handled(trace: seq<Call>) {
    exists exit, acquires, published, canPublish :: EndsWell(exit, acquires, published, trace, canPublish)
  }

  /** The valid events of the inputs that are not dropped, in order. */
  ghost function KeptInputs(inputs: seq<Input>, dropped: set<int>): seq<Event> {
    if inputs == [] then []
    else
      var n := |inputs| - 1;
      KeptInputs(inputs[..n], dropped) + (if inputs[n].Valid? && n !in dropped then [inputs[n].event] else [])
  }

  ghost function DuplicatesOf(statuses: seq<Status>): set<int> {
    set i | 0 <= i < |statuses| && statuses[i] == Duplicate
  }

  /** What the answer says of each input, and its counts: the events published are the valid
      ones that are not duplicates, once each and in order. */
  ghost predicate AnswersWell(inputs: seq<Input>, published: seq<Event>, acquires: seq<Call>, response: Response) {
    && |response.statuses| == |inputs|
    && published == KeptInputs(inputs, DuplicatesOf(response.statuses))
    && |published| == response.accepted
    && response.accepted + response.duplicates + response.rejected == |inputs|
    && response.accepted == CountStatus(response.statuses, Accepted)
    && response.duplicates == CountStatus(response.statuses, Duplicate)
    && response.rejected == CountStatus(response.statuses, Rejected)
    && (forall i :: 0 <= i < |inputs| ==>
          match inputs[i]
          case Malformed => response.statuses[i] == Rejected
          case Valid(e) => response.statuses[i] == Accepted || (response.statuses[i] == Duplicate && e.click && Repeats(inputs, i, acquires)))
  }

  /** The click's opportunity was committed before, or clicked earlier in the batch. */
  ghost predicate Repeats(inputs: seq<Input>, i: int, acquires: seq<Call>)
    requires 0 <= i < |inputs| && inputs[i].Valid?
  {
    || Acquire(inputs[i].event, AlreadyCommitted) in acquires
    || exists j :: 0 <= j < i && inputs[j].Valid? && inputs[j].event.click && inputs[j].event.opp == inputs[i].event.opp
  }

  lemma DuplicateRepeats(inputs: seq<Input>, events: seq<Event>, indexes: seq<int>, w: Work, k: int)
    requires Placed(inputs, events, indexes) && DropsOk(events, |events|, w) && 0 <= k < |indexes| && k in w.duplicates
    ensures Repeats(inputs, indexes[k], w.trace)
  {
    assert Justified(events, k, w.trace);
    if Acquire(events[k], AlreadyCommitted) !in w.trace {
      var j :| 0 <= j < k && events[j].click && events[j].opp == events[k].opp;
      assert inputs[indexes[j]].event == events[j];
    }
  }

  lemma {:induction false} KeptCount(inputs: seq<Input>, statuses: seq<Status>, dropped: set<int>)
    requires |statuses| == |inputs|
    requires forall i :: 0 <= i < |inputs| ==> (statuses[i] == Accepted <==> inputs[i].Valid? && i !in dropped)
    ensures |KeptInputs(inputs, dropped)| == CountStatus(statuses, Accepted)
  {
    if inputs != [] {
      KeptCount(inputs[..|inputs| - 1], statuses[..|inputs| - 1], dropped);
    }
  }

  ghost predicate SamePlaces(indexes: seq<int>, dropped: set<int>, out: set<int>) {
    forall k :: 0 <= k < |indexes| ==> (k in dropped <==> indexes[k] in out)
  }

  lemma SamePlacesFront(indexes: seq<int>, n: int, dropped: set<int>, out: set<int>)
    requires SamePlaces(indexes + [n], dropped, out)
    ensures SamePlaces(indexes, dropped, out) && (|indexes| in dropped <==> n in out)
  {
    assert (indexes + [n])[|indexes|] == n;
    forall k | 0 <= k < |indexes| ensures k in dropped <==> indexes[k] in out {
      assert (indexes + [n])[k] == indexes[k];
    }
  }

  lemma KeptOne(es: seq<Event>, e: Event, dropped: set<int>)
    ensures Kept(es + [e], dropped) == if |es| in dropped then Kept(es, dropped) else Kept(es, dropped) + [e]
  {
    assert (es + [e])[..|es|] == es;
  }

  /** What is kept of the valid events is what is kept of the inputs. */
  lemma {:induction false} KeptInPlace(inputs: seq<Input>, dropped: set<int>, out: set<int>)
    requires SamePlaces(ValidIndexes(inputs), dropped, out)
    ensures |ValidIndexes(inputs)| == |ValidEvents(inputs)|
    ensures KeptInputs(inputs, out) == Kept(ValidEvents(inputs), dropped)
  {
    if inputs != [] {
      var n := |inputs| - 1;
      ValidFront(inputs);
      if inputs[n].Valid? {
        SamePlacesFront(ValidIndexes(inputs[..n]), n, dropped, out);
        KeptOne(ValidEvents(inputs[..n]), inputs[n].event, dropped);
      }
      KeptInPlace(inputs[..n], dropped, out);
    }
  }

  /** The positions of the inputs whose events were dropped. */
  ghost function DroppedInputs(indexes: seq<int>, duplicates: set<int>): set<int> {
    set k | 0 <= k < |indexes| && k in duplicates :: indexes[k]
  }

  /** What is published, answered or not: the valid events, once each and in order, without
      clicks that repeat an earlier one. */
  ghost predicate PublishedWell(inputs: seq<Input>, published: seq<Event>, acquires: seq<Call>, dropped: set<int>) {
    && published == KeptInputs(inputs, dropped)
    && (forall i :: i in dropped ==> 0 <= i < |inputs| && inputs[i].Valid? && inputs[i].event.click && Repeats(inputs, i, acquires))
  }

  lemma SameDropped(indexes: seq<int>, duplicates: set<int>)
    requires forall i, j :: 0 <= i < j < |indexes| ==> indexes[i] < indexes[j]
    ensures SamePlaces(indexes, duplicates, DroppedInputs(indexes, duplicates))
  {
    forall k | 0 <= k < |indexes| ensures k in duplicates <==> indexes[k] in DroppedInputs(indexes, duplicates) {
      if indexes[k] in DroppedInputs(indexes, duplicates) {
        var m :| 0 <= m < |indexes| && m in duplicates && indexes[m] == indexes[k];
        assert m == k;
      }
    }
  }

  lemma KeptIsPublished(inputs: seq<Input>, events: seq<Event>, indexes: seq<int>, w: Work)
    requires Placed(inputs, events, indexes) && SlotsOk(events, |events|, w) && DropsOk(events, |events|, w)
    requires events == ValidEvents(inputs) && indexes == ValidIndexes(inputs)
    ensures PublishedWell(inputs, w.publish, w.trace, DroppedInputs(indexes, w.duplicates))
  {
    var out := DroppedInputs(indexes, w.duplicates);
    assert events[..|events|] == events;
    SameDropped(indexes, w.duplicates);
    KeptInPlace(inputs, w.duplicates, out);
    forall i | i in out ensures 0 <= i < |inputs| && inputs[i].Valid? && inputs[i].event.click && Repeats(inputs, i, w.trace) {
      var k :| 0 <= k < |indexes| && k in w.duplicates && indexes[k] == i;
      DuplicateRepeats(inputs, events, indexes, w, k);
    }
  }

  lemma MarksMean(inputs: seq<Input>, events: seq<Event>, indexes: seq<int>, w: Work, marked: seq<Status>, response: Response)
    requires Placed(inputs, events, indexes) && SlotsOk(events, |events|, w) && DropsOk(events, |events|, w)
    requires events == ValidEvents(inputs) && indexes == ValidIndexes(inputs)
    requires MarkedOk(inputs, indexes, w, w.publish != [], marked) && |response.statuses| == |marked|
    requires forall i :: 0 <= i < |marked| ==> response.statuses[i] == (if marked[i].Accepted? || marked[i].Duplicate? then marked[i] else Rejected)
    requires response.accepted + response.duplicates + response.rejected == |marked|
    requires response.accepted == CountStatus(response.statuses, Accepted) && response.duplicates == CountStatus(response.statuses, Duplicate)
    requires response.rejected == CountStatus(response.statuses, Rejected)
    ensures AnswersWell(inputs, w.publish, w.trace, response)
  {
    var out := DroppedInputs(indexes, w.duplicates);
    KeptIsPublished(inputs, events, indexes, w);
    forall i | 0 <= i < |inputs| ensures StatusOk(inputs, i, out, response.statuses[i]) {
      MarkMeans(inputs, events, indexes, w, marked, i);
    }
    forall i ensures i in out <==> i in DuplicatesOf(response.statuses) {
      if 0 <= i < |inputs| { assert StatusOk(inputs, i, out, response.statuses[i]); }
    }
    assert DuplicatesOf(response.statuses) == out;
    forall i | 0 <= i < |inputs| ensures response.statuses[i] == Accepted <==> inputs[i].Valid? && i !in out {
      assert StatusOk(inputs, i, out, response.statuses[i]);
    }
    KeptCount(inputs, response.statuses, out);
  }

  /** The final status of one input. */
  ghost predicate StatusOk(inputs: seq<Input>, i: int, dropped: set<int>, status: Status)
    requires 0 <= i < |inputs|
  {
    status == if inputs[i].Malformed? then Rejected else if i in dropped then Duplicate else Accepted
  }

  lemma MarkMeans(inputs: seq<Input>, events: seq<Event>, indexes: seq<int>, w: Work, marked: seq<Status>, i: int)
    requires Placed(inputs, events, indexes) && SlotsOk(events, |events|, w)
    requires MarkedOk(inputs, indexes, w, w.publish != [], marked) && 0 <= i < |inputs|
    ensures StatusOk(inputs, i, DroppedInputs(indexes, w.duplicates), if marked[i].Accepted? || marked[i].Duplicate? then marked[i] else Rejected)
  {
    if inputs[i].Valid? {
      var k :| 0 <= k < |indexes| && indexes[k] == i;
      if k in w.slots {
        var m :| 0 <= m < |w.slots| && w.slots[m] == k;
        assert w.publish != [];
        assert forall d :: 0 <= d < |indexes| && indexes[d] == i ==> d == k;
      }
    } else {
      assert forall d :: 0 <= d < |indexes| ==> indexes[d] != i;
    }
  }

  /** The batch handler after validation of its envelope, over the replies of its calls. */
  method RecordEvents(inputs: seq<Input>, replies: nat -> Reply, hasPublisher: bool, publishOk: bool)
    returns (exit: Exit, response: Option<Response>, published: seq<Event>, trace: seq<Call>, ghost acquires: seq<Call>, ghost dropped: set<int>)
    ensures EndsWell(exit, acquires, published, trace, hasPublisher && publishOk)
    ensures exit.Answered? <==> response.Some?
    ensures published == [] || PublishedWell(inputs, published, acquires, dropped)
    ensures response.Some? ==> AnswersWell(inputs, published, acquires, response.value)
  {
    var events, indexes := Validate(inputs);
    var w;
    exit, w := Reserve(events, replies);
    acquires, published, trace, response := w.trace, [], w.trace, None;
    dropped := DroppedInputs(indexes, w.duplicates);
    if !exit.Answered? {
      trace := trace + Releases(w.reservations);
      return;
    }
    KeptIsPublished(inputs, events, indexes, w);
    if w.publish != [] {
      if !hasPublisher {
        exit, trace := Unavailable, trace + Releases(w.reservations);
        return;
      }
      published := w.publish;
      trace := trace + [Publish(published, publishOk)];
      if !publishOk {
        exit, trace := Unavailable, trace + Releases(w.reservations);
        return;
      }
      trace := trace + Commits(w.reservations);
    }
    var marked := Mark(inputs, indexes, w, w.publish != []);
    var completed := CompleteResponse(marked);
    MarksMean(inputs, events, indexes, w, marked, completed);
    response := Some(completed);
  }

  // ---------------------------------------------------------------------------
  // Batches over one store
  // ---------------------------------------------------------------------------

  /** A reservation a batch was told it had: the id of its event, and when it was taken. */
  datatype Hold = Hold(event: int, taken: int)

  /** One opportunity, and the batches that hold, or once held, its reservation. Several of them
      may carry the same event, because a client sends a click again under its old id. */
  datatype Shop = Shop(lease: Option<Lease>, holders: map<int, Hold>, clock: int)

  /** What batches do with the opportunity: a click is published only by a batch that was told
      it had acquired the reservation, and the reservation is then committed; or it is
      released. A batch that does not hear the reply to its acquire goes no further. */
  datatype Move =
    | Acquiring(batch: int, event: int, heard: bool, clock: int)
    | Publishing(batch: int, clock: int)
    | Committing(batch: int, clock: int)
    | Releasing(batch: int, clock: int)

  /** Redis time does not go back, and only a batch with a reservation goes on. */
  ghost predicate Allowed(s: Shop, m: Move) {
    m.clock >= s.clock && (m.Acquiring? <==> m.batch !in s.holders)
  }

  function Act(s: Shop, m: Move, cooldown: int): Shop
    requires m.Committing? || m.Releasing? ==> m.batch in s.holders
  {
    match m
    case Acquiring(batch, event, heard, clock) =>
      var (lease, reply) := AcquireScript(s.lease, event, clock);
      Shop(lease, if heard && reply.Acquired? then s.holders[batch := Hold(event, clock)] else s.holders, clock)
    case Publishing(_, clock) => s.(clock := clock)
    case Committing(batch, clock) =>
      Shop(CommitScript(s.lease, s.holders[batch].event, cooldown, clock).0, s.holders - {batch}, clock)
    case Releasing(batch, clock) =>
      Shop(ReleaseScript(s.lease, s.holders[batch].event, clock), s.holders - {batch}, clock)
  }

  /** The batch is still within the reservation it took. */
  predicate InTime(s: Shop, batch: int, clock: int) {
    batch in s.holders && clock < s.holders[batch].taken + PENDING_SECONDS
  }

  /** A batch in time owns the key, and only one batch is in time. */
  ghost predicate Orderly(s: Shop) {
    forall b :: InTime(s, b, s.clock) ==>
      && s.lease == Some(Pending(s.holders[b].event, s.holders[b].taken + PENDING_SECONDS))
      && (forall c :: InTime(s, c, s.clock) ==> c == b)
  }

  /** A batch past its own reservation commits or releases that of a batch in time, whose event
      has the same id. */
  ghost predicate Intrudes(s: Shop, m: Move) {
    && (m.Committing? || m.Releasing?)
    && m.batch in s.holders
    && !InTime(s, m.batch, m.clock)
    && exists b :: InTime(s, b, m.clock) && s.holders[b].event == s.holders[m.batch].event
  }

  lemma ActKeeps(s: Shop, m: Move, cooldown: int)
    requires Orderly(s) && Allowed(s, m) && !Intrudes(s, m)
    ensures Orderly(Act(s, m, cooldown))
  {
    var t := Act(s, m, cooldown);
    forall b | InTime(t, b, t.clock)
      ensures t.lease == Some(Pending(t.holders[b].event, t.holders[b].taken + PENDING_SECONDS)) && forall c :: InTime(t, c, t.clock) ==> c == b
    {
      if b in s.holders {
        assert InTime(s, b, m.clock) && InTime(s, b, s.clock);
      }
      forall c | InTime(t, c, t.clock) ensures c == b {
        if c in s.holders {
          assert InTime(s, c, m.clock) && InTime(s, c, s.clock);
        }
      }
    }
  }

  lemma IntrusionBreaks(s: Shop, m: Move, cooldown: int)
    requires Orderly(s) && Allowed(s, m) && Intrudes(s, m)
    ensures !Orderly(Act(s, m, cooldown))
  {
    var t := Act(s, m, cooldown);
    var b :| InTime(s, b, m.clock) && s.holders[b].event == s.holders[m.batch].event;
    assert InTime(s, b, s.clock);
    assert InTime(t, b, t.clock);
  }

  /** One move disturbs the order if and only if it is an intrusion. */
  lemma ActKeepsIff(s: Shop, m: Move, cooldown: int)
    requires Orderly(s) && Allowed(s, m)
    ensures Orderly(Act(s, m, cooldown)) <==> !Intrudes(s, m)
  {
    if Intrudes(s, m) {
      IntrusionBreaks(s, m, cooldown);
    } else {
      ActKeeps(s, m, cooldown);
    }
  }

  ghost predicate AllowedRun(s: Shop, ms: seq<Move>, cooldown: int)
    decreases |ms|
  {
    ms != [] ==> Allowed(s, ms[0]) && AllowedRun(Act(s, ms[0], cooldown), ms[1..], cooldown)
  }

  ghost function Proceed(s: Shop, ms: seq<Move>, cooldown: int): Shop
    requires AllowedRun(s, ms, cooldown)
    decreases |ms|
  {
    if ms == [] then s else Proceed(Act(s, ms[0], cooldown), ms[1..], cooldown)
  }

  /** Every state of the run is orderly. */
  ghost predicate OrderlyThroughout(s: Shop, ms: seq<Move>, cooldown: int)
    requires AllowedRun(s, ms, cooldown)
    decreases |ms|
  {
    Orderly(s) && (ms != [] ==> OrderlyThroughout(Act(s, ms[0], cooldown), ms[1..], cooldown))
  }

  /** No move of the run intrudes. */
  ghost predicate Peaceful(s: Shop, ms: seq<Move>, cooldown: int)
    requires AllowedRun(s, ms, cooldown)
    decreases |ms|
  {
    ms != [] ==> !Intrudes(s, ms[0]) && Peaceful(Act(s, ms[0], cooldown), ms[1..], cooldown)
  }

  /** A run of any number of batches is orderly throughout if and only if no batch past its own
      reservation commits or releases another's. */
  lemma {:induction false} OrderlyIffPeaceful(s: Shop, ms: seq<Move>, cooldown: int)
    requires Orderly(s) && AllowedRun(s, ms, cooldown)
    ensures OrderlyThroughout(s, ms, cooldown) <==> Peaceful(s, ms, cooldown)
    decreases |ms|
  {
    if ms != [] {
      ActKeepsIff(s, ms[0], cooldown);
      if Orderly(Act(s, ms[0], cooldown)) {
        OrderlyIffPeaceful(Act(s, ms[0], cooldown), ms[1..], cooldown);
      }
    }
  }

  lemma {:induction false} ProceedKeeps(s: Shop, ms: seq<Move>, cooldown: int)
    requires AllowedRun(s, ms, cooldown) && OrderlyThroughout(s, ms, cooldown)
    ensures Orderly(Proceed(s, ms, cooldown)) && Proceed(s, ms, cooldown).clock >= s.clock
    decreases |ms|
  {
    if ms != [] {
      ProceedKeeps(Act(s, ms[0], cooldown), ms[1..], cooldown);
    }
  }

  ghost function Empty(clock: int): Shop {
    Shop(None, map[], clock)
  }

  /** In every run of any number of batches in which none intrudes: a batch that publishes a
      click in time owns the reservation, so no other batch is in time and the opportunity is
      not committed. */
  lemma {:induction false} PublishIsExclusive(ms: seq<Move>, clock: int, batch: int, now: int, cooldown: int)
    requires AllowedRun(Empty(clock), ms, cooldown) && Peaceful(Empty(clock), ms, cooldown)
    requires var s := Proceed(Empty(clock), ms, cooldown); Allowed(s, Publishing(batch, now)) && InTime(s, batch, now)
    ensures var s := Proceed(Empty(clock), ms, cooldown);
      && OwnedBy(s.lease, s.holders[batch].event, now)
      && (forall other :: InTime(s, other, now) ==> other == batch)
  {
    OrderlyIffPeaceful(Empty(clock), ms, cooldown);
    ProceedKeeps(Empty(clock), ms, cooldown);
    var s := Proceed(Empty(clock), ms, cooldown);
    assert InTime(s, batch, s.clock);
    forall other | InTime(s, other, now) ensures other == batch {
      assert InTime(s, other, s.clock);
    }
  }

  /** While an opportunity is committed and unexpired the key does not change, no batch gets the
      reservation, and no batch publishes a click for it in time. */
  lemma {:induction false} NoClickWhileCommitted(s: Shop, ms: seq<Move>, cooldown: int)
    requires Orderly(s) && AllowedRun(s, ms, cooldown)
    requires s.lease.Some? && s.lease.value.Committed? && Proceed(s, ms, cooldown).clock < s.lease.value.expiresAt
    ensures var t := Proceed(s, ms, cooldown);
      && t.lease == s.lease
      && t.clock >= s.clock
      && t.holders.Keys <= s.holders.Keys
      && (forall b, now :: Allowed(t, Publishing(b, now)) ==> !InTime(t, b, now))
    decreases |ms|
  {
    if ms != [] {
      var t := Act(s, ms[0], cooldown);
      assert !Intrudes(s, ms[0]) by {
        forall b ensures !InTime(s, b, ms[0].clock) {
          assert !InTime(s, b, s.clock);
        }
      }
      ActKeeps(s, ms[0], cooldown);
      ClockGrows(t, ms[1..], cooldown);
      NoClickWhileCommitted(t, ms[1..], cooldown);
    } else {
      forall b, now | Allowed(s, Publishing(b, now)) ensures !InTime(s, b, now) {
        assert !InTime(s, b, s.clock);
      }
    }
  }

  lemma {:induction false} ClockGrows(s: Shop, ms: seq<Move>, cooldown: int)
    requires AllowedRun(s, ms, cooldown)
    ensures Proceed(s, ms, cooldown).clock >= s.clock
    decreases |ms|
  {
    if ms != [] {
      ClockGrows(Act(s, ms[0], cooldown), ms[1..], cooldown);
    }
  }

  lemma {:induction false} FourMoves(s: Shop, a: Move, b: Move, c: Move, d: Move, cooldown: int)
    requires AllowedRun(s, [a], cooldown)
    requires AllowedRun(Act(s, a, cooldown), [b], cooldown)
    requires AllowedRun(Act(Act(s, a, cooldown), b, cooldown), [c], cooldown)
    requires AllowedRun(Act(Act(Act(s, a, cooldown), b, cooldown), c, cooldown), [d], cooldown)
    ensures AllowedRun(s, [a, b, c, d], cooldown)
    ensures Proceed(s, [a, b, c, d], cooldown) == Act(Act(Act(Act(s, a, cooldown), b, cooldown), c, cooldown), d, cooldown)
  {
    assert [a, b, c, d][1..] == [b, c, d] && [b, c, d][1..] == [c, d] && [c, d][1..] == [d] && [d][1..] == [];
    var s1 := Act(s, a, cooldown);
    var s2 := Act(s1, b, cooldown);
    var s3 := Act(s2, c, cooldown);
    assert AllowedRun(s3, [d], cooldown) && Proceed(s3, [d], cooldown) == Act(s3, d, cooldown);
    assert AllowedRun(s2, [c, d], cooldown) && Proceed(s2, [c, d], cooldown) == Act(s3, d, cooldown);
    assert AllowedRun(s1, [b, c, d], cooldown) && Proceed(s1, [b, c, d], cooldown) == Act(s3, d, cooldown);
  }

  /** A batch that publishes after its reservation has run out can repeat a click that another
      batch has published and committed meanwhile. */
  lemma {:induction false} LatePublishRepeats(cooldown: int)
    requires cooldown > 1
    ensures var ms := [Acquiring(1, 1, true, 0), Acquiring(2, 2, true, 60), Publishing(2, 60), Committing(2, 60)];
      && AllowedRun(Empty(0), ms, cooldown)
      && Peaceful(Empty(0), ms, cooldown)
      && var s := Proceed(Empty(0), ms, cooldown);
         s.lease == Some(Committed(2, 60 + cooldown)) && Allowed(s, Publishing(1, 61)) && 61 < 60 + cooldown
  {
    FourMoves(Empty(0), Acquiring(1, 1, true, 0), Acquiring(2, 2, true, 60), Publishing(2, 60), Committing(2, 60), cooldown);
    OrderlyIffPeaceful(Empty(0), [Acquiring(1, 1, true, 0), Acquiring(2, 2, true, 60), Publishing(2, 60), Committing(2, 60)], cooldown);
  }

  /** A click sent again takes a new reservation under its old id; the first batch, past its own
      time, releases it; a third batch takes it once more. Two batches are then in time, and
      both may publish. */
  lemma {:induction false} LateReleaseAdmitsTwo(cooldown: int)
    ensures var ms := [Acquiring(1, 1, true, 0), Acquiring(2, 1, true, 60), Releasing(1, 61), Acquiring(3, 2, true, 62)];
      && AllowedRun(Empty(0), ms, cooldown)
      && !Peaceful(Empty(0), ms, cooldown)
      && var s := Proceed(Empty(0), ms, cooldown);
         && Allowed(s, Publishing(2, 63)) && InTime(s, 2, 63)
         && Allowed(s, Publishing(3, 63)) && InTime(s, 3, 63)
  {
    FourMoves(Empty(0), Acquiring(1, 1, true, 0), Acquiring(2, 1, true, 60), Releasing(1, 61), Acquiring(3, 2, true, 62), cooldown);
    var ms := [Acquiring(1, 1, true, 0), Acquiring(2, 1, true, 60), Releasing(1, 61), Acquiring(3, 2, true, 62)];
    if Peaceful(Empty(0), ms, cooldown) {
      PublishIsExclusive(ms, 0, 2, 63, cooldown);
    }
  }

  /** The first batch publishes, and past its own time commits the reservation the click took
      when it was sent again; the second batch is in time on a committed opportunity. */
  lemma {:induction false} LateCommitRepeats(cooldown: int)
    requires cooldown > 1
    ensures var ms := [Acquiring(1, 1, true, 0), Acquiring(2, 1, true, 60), Publishing(1, 61), Committing(1, 61)];
      && AllowedRun(Empty(0), ms, cooldown)
      && !Peaceful(Empty(0), ms, cooldown)
      && var s := Proceed(Empty(0), ms, cooldown);
         && s.lease == Some(Committed(1, 61 + cooldown)) && 62 < 61 + cooldown
         && Allowed(s, Publishing(2, 62)) && InTime(s, 2, 62)
  {
    FourMoves(Empty(0), Acquiring(1, 1, true, 0), Acquiring(2, 1, true, 60), Publishing(1, 61), Committing(1, 61), cooldown);
    var ms := [Acquiring(1, 1, true, 0), Acquiring(2, 1, true, 60), Publishing(1, 61), Committing(1, 61)];
    if Peaceful(Empty(0), ms, cooldown) {
      PublishIsExclusive(ms, 0, 2, 62, cooldown);
    }
  }

  // ---------------------------------------------------------------------------
  // The handler's calls are such moves
  // ---------------------------------------------------------------------------

  ghost predicate ClicksOn(events: seq<Event>, opp: int) {
    exists i :: 0 <= i < |events| && events[i].click && events[i].opp == opp
  }

  /** The event under which a batch that has made these calls holds the opportunity. */
  function HeldAfter(calls: seq<Call>, opp: int): Option<int> {
    if calls == [] then None
    else
      var before := HeldAfter(calls[..|calls| - 1], opp);
      match calls[|calls| - 1]
      case Acquire(e, reply) => if e.opp == opp && reply.Acquired? then Some(e.id) else before
      case Publish(_, _) => before
      case Release(e) => if e.opp == opp then None else before
      case Commit(e) => if e.opp == opp then None else before
  }

  ghost predicate Asked(calls: seq<Call>, opp: int) {
    exists i :: 0 <= i < |calls| && calls[i].Acquire? && calls[i].event.opp == opp
  }

  /** After `before` the batch may make this call: it asks for an opportunity once, and
      publishes, commits and releases only under the event with which it holds it. */
  ghost predicate Proper(before: seq<Call>, call: Call, opp: int) {
    match call
    case Acquire(e, _) => e.opp == opp ==> !Asked(before, opp)
    case Publish(events, _) => forall i :: 0 <= i < |events| && events[i].click && events[i].opp == opp ==> HeldAfter(before, opp) == Some(events[i].id)
    case Release(e) => e.opp == opp ==> HeldAfter(before, opp) == Some(e.id)
    case Commit(e) => e.opp == opp ==> HeldAfter(before, opp) == Some(e.id)
  }

  function Find(es: seq<Event>, opp: int): Option<int> {
    if es == [] then None
    else if es[|es| - 1].opp == opp then Some(es[|es| - 1].id)
    else Find(es[..|es| - 1], opp)
  }

  lemma {:induction false} HeldAfterAcquires(calls: seq<Call>, opp: int)
    requires OnlyAcquires(calls)
    ensures HeldAfter(calls, opp) == Find(Acquires(calls), opp)
  {
    if calls != [] {
      var n := |calls| - 1;
      HeldAfterAcquires(calls[..n], opp);
      var before := Acquires(calls[..n]);
      if calls[n].reply.Acquired? {
        assert (before + [calls[n].event])[..|before|] == before;
      } else {
        assert Acquires(calls) == before;
      }
    }
  }

  predicate Apart(es: seq<Event>) {
    forall i, j :: 0 <= i < j < |es| ==> es[i].opp != es[j].opp
  }

  lemma {:induction false} AcquiresApart(calls: seq<Call>)
    requires OnlyAcquires(calls) && AskedOnce(calls)
    ensures Apart(Acquires(calls))
    ensures forall k :: 0 <= k < |Acquires(calls)| ==> exists i :: 0 <= i < |calls| && calls[i].event == Acquires(calls)[k]
  {
    if calls != [] {
      var n := |calls| - 1;
      AcquiresApart(calls[..n]);
      var before := Acquires(calls[..n]);
      forall k | 0 <= k < |before| ensures exists i :: 0 <= i < n && calls[i].event == before[k] {
        var i :| 0 <= i < n && calls[..n][i].event == before[k];
      }
    }
  }

  lemma {:induction false} FindAt(es: seq<Event>, k: int)
    requires Apart(es) && 0 <= k < |es|
    ensures Find(es, es[k].opp) == Some(es[k].id)
  {
    if k < |es| - 1 {
      FindAt(es[..|es| - 1], k);
    }
  }

  /** Ending the first k reservations leaves an opportunity held that is not among them. */
  lemma {:induction false} EndsLeave(before: seq<Call>, es: seq<Event>, ends: seq<Call>, k: nat, opp: int)
    requires |ends| == |es| && k <= |es|
    requires forall i :: 0 <= i < |es| ==> ends[i] == Release(es[i]) || ends[i] == Commit(es[i])
    requires forall i :: 0 <= i < k ==> es[i].opp != opp
    ensures HeldAfter(before + ends[..k], opp) == HeldAfter(before, opp)
  {
    if k == 0 {
      assert before + ends[..0] == before;
    } else {
      EndsLeave(before, es, ends, k - 1, opp);
      var calls := before + ends[..k];
      assert calls[..|calls| - 1] == before + ends[..k - 1] && calls[|calls| - 1] == ends[k - 1];
    }
  }

  lemma {:induction false} ClicksHave(es: seq<Event>, i: int)
    requires 0 <= i < |es| && es[i].click
    ensures exists k :: 0 <= k < |Clicks(es)| && Clicks(es)[k] == es[i]
  {
    var n := |es| - 1;
    var before := Clicks(es[..n]);
    if i < n {
      ClicksHave(es[..n], i);
      var k :| 0 <= k < |before| && before[k] == es[..n][i];
      assert Clicks(es)[k] == es[i];
    } else {
      assert Clicks(es)[|before|] == es[i];
    }
  }

  /** The three parts of a handled trace. */
  ghost predicate Parts(trace: seq<Call>, acquires: seq<Call>, middle: seq<Call>, ends: seq<Call>) {
    var reserved := Acquires(acquires);
    && trace == acquires + middle + ends
    && OnlyAcquires(acquires) && AskedOnce(acquires)
    && (middle == [] || (|middle| == 1 && middle[0].Publish? && Clicks(middle[0].events) == reserved))
    && (ends == [] || (|ends| == |reserved| && forall i :: 0 <= i < |reserved| ==> ends[i] == Release(reserved[i]) || ends[i] == Commit(reserved[i])))
  }

  lemma HandledParts(trace: seq<Call>) returns (acquires: seq<Call>, middle: seq<Call>, ends: seq<Call>)
    requires Handled(trace)
    ensures Parts(trace, acquires, middle, ends)
  {
    var exit, acq, published, canPublish :| EndsWell(exit, acq, published, trace, canPublish);
    acquires := acq;
    var reserved := Acquires(acquires);
    if trace == acquires + Releases(reserved) {
      middle, ends := [], Releases(reserved);
    } else if trace == acquires {
      middle, ends := [], [];
    } else if !exit.Answered? {
      middle, ends := [Publish(published, false)], Releases(reserved);
    } else {
      middle, ends := [Publish(published, true)], Commits(reserved);
    }
  }

  lemma {:induction false} HeldAfterMiddle(acquires: seq<Call>, middle: seq<Call>, opp: int)
    requires OnlyAcquires(acquires) && (middle == [] || (|middle| == 1 && middle[0].Publish?))
    ensures HeldAfter(acquires + middle, opp) == Find(Acquires(acquires), opp)
  {
    HeldAfterAcquires(acquires, opp);
    if middle == [] {
      assert acquires + middle == acquires;
    } else {
      assert (acquires + middle)[..|acquires|] == acquires;
    }
  }

  /** Every call of a handled batch is proper. */
  lemma HandledIsProper(trace: seq<Call>, n: int, opp: int)
    requires Handled(trace) && 0 <= n < |trace|
    ensures Proper(trace[..n], trace[n], opp)
  {
    var acquires, middle, ends := HandledParts(trace);
    var reserved := Acquires(acquires);
    AcquiresApart(acquires);
    if n < |acquires| {
      assert trace[n] == acquires[n] && trace[..n] == acquires[..n];
    } else if n < |acquires| + |middle| {
      assert trace[n] == middle[0] && trace[..n] == acquires;
      HeldAfterAcquires(acquires, opp);
      forall i | 0 <= i < |middle[0].events| && middle[0].events[i].click && middle[0].events[i].opp == opp
        ensures HeldAfter(acquires, opp) == Some(middle[0].events[i].id)
      {
        ClicksHave(middle[0].events, i);
        var k :| 0 <= k < |reserved| && reserved[k] == middle[0].events[i];
        FindAt(reserved, k);
      }
    } else {
      var before, k := acquires + middle, n - |acquires| - |middle|;
      assert trace[n] == ends[k] && trace[..n] == before + ends[..k];
      if reserved[k].opp == opp {
        HeldAfterMiddle(acquires, middle, opp);
        FindAt(reserved, k);
        EndsLeave(before, reserved, ends, k, opp);
      }
    }
  }

  /** The batch makes its next call; the script it asks for is executed, or the call does not
      reach Redis. */
  datatype Turn = Turn(batch: int, clock: int, reached: bool)

  function Made(made: map<int, nat>, batch: int): nat {
    if batch in made then made[batch] else 0
  }

  /** What a call does to one opportunity. */
  ghost function MoveOf(call: Call, t: Turn, opp: int): Option<Move> {
    match call
    case Acquire(e, reply) => if e.opp == opp && t.reached then Some(Acquiring(t.batch, e.id, !reply.Failed?, t.clock)) else None
    case Publish(events, _) => if ClicksOn(events, opp) then Some(Publishing(t.batch, t.clock)) else None
    case Release(e) => if e.opp == opp && t.reached then Some(Releasing(t.batch, t.clock)) else None
    case Commit(e) => if e.opp == opp && t.reached then Some(Committing(t.batch, t.clock)) else None
  }

  /** A reply that arrives is the script's. */
  ghost predicate Answers(call: Call, t: Turn, opp: int, s: Shop) {
    call.Acquire? && call.event.opp == opp && !call.reply.Failed? ==>
      t.reached && AcquireScript(s.lease, call.event.id, t.clock).1 == call.reply
  }

  /** Batches take turns in any order; each makes the calls of its trace one after another, and
      may stop anywhere. */
  ghost predicate Legal(traces: int -> seq<Call>, opp: int, s: Shop, made: map<int, nat>, turns: seq<Turn>, cooldown: int)
    decreases |turns|
  {
    turns != [] ==>
      var t := turns[0];
      var n := Made(made, t.batch);
      && n < |traces(t.batch)|
      && t.clock >= s.clock
      && Answers(traces(t.batch)[n], t, opp, s)
      && match MoveOf(traces(t.batch)[n], t, opp)
         case None => Legal(traces, opp, s, made[t.batch := n + 1], turns[1..], cooldown)
         case Some(m) => Allowed(s, m) ==> Legal(traces, opp, Act(s, m, cooldown), made[t.batch := n + 1], turns[1..], cooldown)
  }

  ghost function MadeAfter(made: map<int, nat>, turns: seq<Turn>): map<int, nat>
    decreases |turns|
  {
    if turns == [] then made
    else MadeAfter(made[turns[0].batch := Made(made, turns[0].batch) + 1], turns[1..])
  }

  /** The moves on one opportunity that a schedule amounts to. */
  ghost function MovesOf(traces: int -> seq<Call>, opp: int, made: map<int, nat>, turns: seq<Turn>): seq<Move>
    decreases |turns|
  {
    if turns == [] then []
    else
      var t := turns[0];
      var n := Made(made, t.batch);
      var rest := MovesOf(traces, opp, made[t.batch := n + 1], turns[1..]);
      if n >= |traces(t.batch)| || MoveOf(traces(t.batch)[n], t, opp).None? then rest
      else [MoveOf(traces(t.batch)[n], t, opp).value] + rest
  }

  /** What the calls a batch has made say of its place in the store. */
  ghost predicate Agrees(calls: seq<Call>, s: Shop, batch: int, opp: int) {
    && (batch in s.holders ==> Asked(calls, opp))
    && (HeldAfter(calls, opp).Some? ==> batch in s.holders && s.holders[batch].event == HeldAfter(calls, opp).value)
  }

  ghost predicate Agreed(traces: int -> seq<Call>, opp: int, s: Shop, made: map<int, nat>) {
    forall b :: Made(made, b) <= |traces(b)| && Agrees(traces(b)[..Made(made, b)], s, b, opp)
  }

  lemma CallAgrees(before: seq<Call>, call: Call, t: Turn, opp: int, s: Shop, cooldown: int)
    requires Proper(before, call, opp) && Answers(call, t, opp, s) && t.clock >= s.clock
    requires Agrees(before, s, t.batch, opp)
    ensures MoveOf(call, t, opp).None? ==> Agrees(before + [call], s, t.batch, opp)
    ensures MoveOf(call, t, opp).Some? ==>
      && Allowed(s, MoveOf(call, t, opp).value)
      && Agrees(before + [call], Act(s, MoveOf(call, t, opp).value, cooldown), t.batch, opp)
  {
    var calls := before + [call];
    assert calls[..|before|] == before && calls[|before|] == call;
    if Asked(before, opp) {
      var i :| 0 <= i < |before| && before[i].Acquire? && before[i].event.opp == opp;
      assert calls[i] == before[i];
    }
  }

  /** A move of one batch leaves the others' places as they are. */
  lemma OthersAgree(calls: seq<Call>, s: Shop, m: Move, b: int, opp: int, cooldown: int)
    requires Agrees(calls, s, b, opp) && Allowed(s, m) && m.batch != b
    ensures Agrees(calls, Act(s, m, cooldown), b, opp)
  { }

  /** What a turn leaves behind. */
  ghost function After(s: Shop, m: Option<Move>, cooldown: int): Shop
    requires m.Some? ==> Allowed(s, m.value)
  {
    if m.Some? then Act(s, m.value, cooldown) else s
  }

  lemma TurnAgrees(traces: int -> seq<Call>, opp: int, s: Shop, made: map<int, nat>, t: Turn, cooldown: int)
    requires Agreed(traces, opp, s, made) && Made(made, t.batch) < |traces(t.batch)| && t.clock >= s.clock
    requires Proper(traces(t.batch)[..Made(made, t.batch)], traces(t.batch)[Made(made, t.batch)], opp)
    requires Answers(traces(t.batch)[Made(made, t.batch)], t, opp, s)
    ensures var m := MoveOf(traces(t.batch)[Made(made, t.batch)], t, opp);
      && (m.Some? ==> Allowed(s, m.value))
      && Agreed(traces, opp, After(s, m, cooldown), made[t.batch := Made(made, t.batch) + 1])
  {
    var n := Made(made, t.batch);
    var trace := traces(t.batch);
    CallAgrees(trace[..n], trace[n], t, opp, s, cooldown);
    assert trace[..n + 1] == trace[..n] + [trace[n]];
    var m := MoveOf(trace[n], t, opp);
    var made' := made[t.batch := n + 1];
    forall b ensures Made(made', b) <= |traces(b)| && Agrees(traces(b)[..Made(made', b)], After(s, m, cooldown), b, opp) {
      assert Made(made, b) <= |traces(b)| && Agrees(traces(b)[..Made(made, b)], s, b, opp);
      if b != t.batch && m.Some? {
        OthersAgree(traces(b)[..Made(made, b)], s, m.value, b, opp, cooldown);
      }
    }
  }

  /** The moves are allowed, and lead to where these calls were made. */
  ghost predicate Leads(traces: int -> seq<Call>, opp: int, s: Shop, ms: seq<Move>, made: map<int, nat>, cooldown: int) {
    AllowedRun(s, ms, cooldown) && Agreed(traces, opp, Proceed(s, ms, cooldown), made)
  }

  lemma LeadsOn(traces: int -> seq<Call>, opp: int, s: Shop, m: Option<Move>, rest: seq<Move>, made: map<int, nat>, cooldown: int)
    requires m.Some? ==> Allowed(s, m.value)
    requires Leads(traces, opp, After(s, m, cooldown), rest, made, cooldown)
    ensures Leads(traces, opp, s, if m.Some? then [m.value] + rest else rest, made, cooldown)
  {
    if m.Some? {
      assert ([m.value] + rest)[1..] == rest;
    }
  }

  lemma NextTurn(traces: int -> seq<Call>, opp: int, s: Shop, made: map<int, nat>, turns: seq<Turn>, cooldown: int)
    requires turns != [] && Handled(traces(turns[0].batch))
    requires Agreed(traces, opp, s, made) && Legal(traces, opp, s, made, turns, cooldown)
    ensures var t, n := turns[0], Made(made, turns[0].batch);
      && n < |traces(t.batch)|
      && var m := MoveOf(traces(t.batch)[n], t, opp);
         && (m.Some? ==> Allowed(s, m.value))
         && Agreed(traces, opp, After(s, m, cooldown), made[t.batch := n + 1])
         && Legal(traces, opp, After(s, m, cooldown), made[t.batch := n + 1], turns[1..], cooldown)
  {
    HandledIsProper(traces(turns[0].batch), Made(made, turns[0].batch), opp);
    TurnAgrees(traces, opp, s, made, turns[0], cooldown);
  }

  /** However handled batches take turns, what they do to an opportunity is a run of allowed
      moves. */
  lemma {:induction false} TurnsAreMoves(traces: int -> seq<Call>, opp: int, s: Shop, made: map<int, nat>, turns: seq<Turn>, cooldown: int)
    requires forall b {:trigger Handled(traces(b))} :: Handled(traces(b))
    requires Agreed(traces, opp, s, made) && Legal(traces, opp, s, made, turns, cooldown)
    ensures Leads(traces, opp, s, MovesOf(traces, opp, made, turns), MadeAfter(made, turns), cooldown)
    decreases |turns|
  {
    if turns != [] {
      var t, n := turns[0], Made(made, turns[0].batch);
      assert Handled(traces(t.batch));
      NextTurn(traces, opp, s, made, turns, cooldown);
      var m, made' := MoveOf(traces(t.batch)[n], t, opp), made[t.batch := n + 1];
      TurnsAreMoves(traces, opp, After(s, m, cooldown), made', turns[1..], cooldown);
      LeadsOn(traces, opp, s, m, MovesOf(traces, opp, made', turns[1..]), MadeAfter(made', turns[1..]), cooldown);
    }
  }

  lemma NothingMade(traces: int -> seq<Call>, opp: int, clock: int)
    ensures Agreed(traces, opp, Empty(clock), map[])
  {
    forall b ensures Made(map[], b) <= |traces(b)| && Agrees(traces(b)[..Made(map[], b)], Empty(clock), b, opp) {
      assert traces(b)[..Made(map[], b)] == [];
    }
  }

  /** When, in such a run from an empty store, none intrudes and one, in time, is about to publish a batch with a click on
      the opportunity, then it owns the reservation under that click's id and no other is in
      time. */
  lemma {:induction false} HandlersPublishAlone(traces: int -> seq<Call>, opp: int, clock: int, turns: seq<Turn>, batch: int, i: int, now: int, cooldown: int)
    requires forall b {:trigger Handled(traces(b))} :: Handled(traces(b))
    requires Legal(traces, opp, Empty(clock), map[], turns, cooldown)
    requires var n := Made(MadeAfter(map[], turns), batch);
      && n < |traces(batch)| && traces(batch)[n].Publish?
      && 0 <= i < |traces(batch)[n].events| && traces(batch)[n].events[i].click && traces(batch)[n].events[i].opp == opp
    ensures var ms := MovesOf(traces, opp, map[], turns);
      && AllowedRun(Empty(clock), ms, cooldown)
      && var s := Proceed(Empty(clock), ms, cooldown);
         && batch in s.holders
         && (Peaceful(Empty(clock), ms, cooldown) && now >= s.clock && InTime(s, batch, now) ==>
               && OwnedBy(s.lease, traces(batch)[Made(MadeAfter(map[], turns), batch)].events[i].id, now)
               && (forall other :: InTime(s, other, now) ==> other == batch))
  {
    NothingMade(traces, opp, clock);
    TurnsAreMoves(traces, opp, Empty(clock), map[], turns, cooldown);
    var ms := MovesOf(traces, opp, map[], turns);
    var s := Proceed(Empty(clock), ms, cooldown);
    var n := Made(MadeAfter(map[], turns), batch);
    assert Handled(traces(batch));
    HandledIsProper(traces(batch), n, opp);
    assert Agrees(traces(batch)[..n], s, batch, opp);
    if Peaceful(Empty(clock), ms, cooldown) && now >= s.clock && InTime(s, batch, now) {
      PublishIsExclusive(ms, clock, batch, now, cooldown);
    }
  }
}
