/** The transactions on the post tables, step by step, and the desired-state mirror sync
    built from them. Each transaction ends in the state its function in PostGraph gives,
    and a failing one leaves the database as it was. */
module MirrorSync {
  import opened Basics
  import opened PostGraph
  import opened Ordering

  datatype Counters = Counters(kept: nat, inserted: nat, reactivated: nat, retiredSoft: nat, retiredHard: nat)

  datatype DesiredResult = Kept | Inserted | Refused

  datatype Account = Account(id: int, user: int)

  // ---------------------------------------------------------------------------
  // CalculateDesiredStateDiff
  // ---------------------------------------------------------------------------

  datatype Diff = Diff(keep: seq<int>, reactivate: seq<int>, insert: seq<int>, retire: seq<int>)

  function IdKey(x: int): Key {
    Key(-x, 0, 0, 0)
  }

  /** sort.Strings. */
  function SortIds(s: set<int>): seq<int> {
    SortDesc(s, IdKey)
  }

  ghost function IdsOf(ids: seq<int>): set<int> {
    set x | x in ids && x != EMPTY_ID
  }

  method CollectIds(ids: seq<int>) returns (s: set<int>)
    ensures s == IdsOf(ids)
  {
    s := {};
    for i := 0 to |ids|
      invariant s == IdsOf(ids[..i])
    {
      assert ids[..i + 1] == ids[..i] + [ids[i]];
      if ids[i] != EMPTY_ID {
        s := s + {ids[i]};
      }
    }
    assert ids[..|ids|] == ids;
  }

  /** Which of the three lists a desired id is appended to. */
  datatype Kind = Keep | Reactivate | Insert

  function KindOf(id: int, active: set<int>, tombstone: set<int>): Kind {
    if id in active then Keep else if id in tombstone then Reactivate else Insert
  }

  function OfKind(kinds: map<int, Kind>, kind: Kind): set<int> {
    set id | id in kinds && kinds[id] == kind
  }

  method Classify(desired: set<int>, active: set<int>, tombstone: set<int>) returns (kinds: map<int, Kind>)
    ensures kinds.Keys == desired && forall id | id in desired :: kinds[id] == KindOf(id, active, tombstone)
  {
    kinds := map[];
    var todo := desired;
    while todo != {}
      invariant todo <= desired && kinds.Keys == desired - todo
      invariant forall id | id in kinds :: kinds[id] == KindOf(id, active, tombstone)
      decreases |todo|
    {
      var id := Pick(todo);
      todo := todo - {id};
      if id in active {
        kinds := kinds[id := Keep];
        continue;
      }
      if id in tombstone {
        kinds := kinds[id := Reactivate];
        continue;
      }
      kinds := kinds[id := Insert];
    }
  }

  method Missing(active: set<int>, desired: set<int>) returns (retire: set<int>)
    ensures retire == active - desired
  {
    retire := {};
    var todo := active;
    while todo != {}
      invariant todo <= active
      invariant retire == active - todo - desired
      decreases |todo|
    {
      var id := Pick(todo);
      todo := todo - {id};
      if id !in desired {
        retire := retire + {id};
      }
    }
  }

  /** What the four sorted lists hold. */
  function DiffOf(active: set<int>, tombstone: set<int>, desired: set<int>): Diff {
    Diff(
      SortIds(desired * active),
      SortIds(desired * tombstone - active),
      SortIds(desired - active - tombstone),
      SortIds(active - desired))
  }

  /** The lists do not depend on the order maps are iterated in. */
  method CalculateDesiredStateDiff(active: seq<int>, tombstone: seq<int>, desired: seq<int>) returns (diff: Diff)
    ensures diff == DiffOf(IdsOf(active), IdsOf(tombstone), IdsOf(desired))
  {
    var activeSet := CollectIds(active);
    var tombstoneSet := CollectIds(tombstone);
    var desiredSet := CollectIds(desired);
    var kinds := Classify(desiredSet, activeSet, tombstoneSet);
    var retire := Missing(activeSet, desiredSet);
    assert OfKind(kinds, Keep) == desiredSet * activeSet;
    assert OfKind(kinds, Reactivate) == desiredSet * tombstoneSet - activeSet;
    assert OfKind(kinds, Insert) == desiredSet - activeSet - tombstoneSet;
    diff := Diff(SortIds(OfKind(kinds, Keep)), SortIds(OfKind(kinds, Reactivate)), SortIds(OfKind(kinds, Insert)), SortIds(retire));
  }

  // ---------------------------------------------------------------------------
  // What the mirror tables say about one account
  // ---------------------------------------------------------------------------

  ghost function MappedIds(s: State, account: int, state: MirrorState): set<int> {
    set id | id in s.mirror && s.mirror[id].account == account && s.mirror[id].state == state
  }

  ghost function Sources(s: State, account: int, state: MirrorState): set<int> {
    set id | id in MappedIds(s, account, state) :: s.mirror[id].source
  }

  /** A desired source post that sync refuses: bound to another account, a tombstone, or deleted. */
  ghost predicate Blocked(s: State, account: int, source: int) {
    exists id | id in s.mirror && id in s.posts ::
      s.mirror[id].source == source && (s.mirror[id].account != account || s.mirror[id].state == Tombstone || s.posts[id].deleted)
  }

  ghost predicate AllFree(s: State, account: int, wanted: set<int>) {
    forall x | x in wanted :: !Blocked(s, account, x)
  }

  /** Tombstones of the account that are no longer desired and have nothing left that refers to them. */
  ghost function Collectable(s: State, account: int, wanted: set<int>): set<int> {
    set id | id in MappedIds(s, account, Tombstone) && s.mirror[id].source !in wanted && !HasDependency(s.posts, id)
  }

  ghost function Retirable(s: State, account: int, wanted: set<int>): set<int> {
    set id | id in MappedIds(s, account, Active) && s.mirror[id].source !in wanted
  }

  /** Those of them that something still refers to. */
  ghost function SoftRetirable(s: State, account: int, wanted: set<int>): set<int> {
    set id | id in Retirable(s, account, wanted) && HasDependency(s.posts, id)
  }

  ghost predicate SameDependencies(s: State, t: State) {
    forall id :: HasDependency(s.posts, id) == HasDependency(t.posts, id)
  }

  lemma ImportDependencies(s: State, author: int, account: int, source: int)
    requires Inv(s)
    ensures SameDependencies(s, ImportSpec(s, author, account, source))
  {
    var t := ImportSpec(s, author, account, source);
    assert s.nextId !in s.posts;
    forall id ensures HasDependency(s.posts, id) == HasDependency(t.posts, id) {
      if HasDependency(s.posts, id) {
        var p :| p in s.posts && Refers(s.posts[p], id);
        assert t.posts[p] == s.posts[p];
      }
    }
  }

  lemma GoneDependencies(s: State, gone: int, after: map<int, Post>)
    requires Inv(s) && gone in s.mirror
    requires after == s.posts[gone := s.posts[gone].(deleted := true)] || after == s.posts - {gone}
    ensures forall id :: HasDependency(s.posts, id) == HasDependency(after, id)
  {
    assert RefsOk(s.posts, gone);
    forall id ensures HasDependency(s.posts, id) == HasDependency(after, id) {
      if HasDependency(s.posts, id) {
        var p :| p in s.posts && Refers(s.posts[p], id);
        assert p != gone && after[p] == s.posts[p];
      }
      if HasDependency(after, id) {
        var p :| p in after && Refers(after[p], id);
        assert Refers(s.posts[p], id);
      }
    }
  }

  /** A mapping row and its post are as they were. */
  ghost predicate RowSame(s: State, t: State, id: int) {
    && id in s.mirror && id in s.posts && id in t.mirror && id in t.posts
    && t.mirror[id] == s.mirror[id] && t.posts[id] == s.posts[id]
  }

  ghost predicate PostSame(s: State, t: State, id: int) {
    id in s.posts && id in t.posts && t.posts[id] == s.posts[id]
  }

  /** A mirrored post that is no longer desired: as long as something refers to it, it is
      deleted but keeps its row, its references and its counters, and its mapping is a
      tombstone; otherwise row and mapping are gone. */
  ghost predicate Ended(s: State, t: State, id: int) {
    && id in s.posts && id in s.mirror
    && if HasDependency(s.posts, id) then
         && id in t.posts && t.posts[id] == s.posts[id].(deleted := true)
         && id in t.mirror && t.mirror[id] == s.mirror[id].(state := Tombstone)
       else id !in t.posts && id !in t.mirror
  }

  /** A live root post without replies and quotes. */
  function FreshPost(author: int): Post {
    Post(author, None, None, None, false, true, 0, 0)
  }

  /** Every post was there before, as it is now, or was imported for this user. */
  ghost predicate OnlyImports(s: State, t: State, user: int) {
    && (forall id | id in s.posts :: PostSame(s, t, id))
    && (forall id | id in t.posts && id !in s.posts :: id >= s.nextId && id in t.mirror && t.posts[id] == FreshPost(user))
  }

  /** What sync may find when it reaches an account: its rows are as they were loaded, and no
      other row added meanwhile carries one of its desired source ids. */
  ghost predicate Untouched(initial: State, s: State, account: int, wanted: set<int>) {
    && (forall id | id in initial.mirror && initial.mirror[id].account == account :: RowSame(initial, s, id))
    && (forall id | id in s.mirror && s.mirror[id].account == account :: id in initial.mirror && initial.mirror[id] == s.mirror[id])
    && (forall id | id in s.mirror && id !in initial.mirror :: s.mirror[id].source !in wanted)
    && (forall id | id in s.mirror && id in initial.mirror :: s.mirror[id].account == initial.mirror[id].account && s.mirror[id].source == initial.mirror[id].source)
    && SameDependencies(initial, s) && s.nextId >= initial.nextId
  }

  /** After the desired posts of one account were kept or inserted. */
  ghost predicate Applied(s: State, t: State, account: int, wanted: set<int>) {
    && (forall id | id in s.mirror :: RowSame(s, t, id))
    && (forall id | id in t.mirror && id !in s.mirror :: t.mirror[id].account == account && t.mirror[id].state == Active && t.mirror[id].source in wanted && id >= s.nextId && id in t.posts && !t.posts[id].deleted)
    && wanted <= Sources(t, account, Active)
    && SameDependencies(s, t) && t.nextId >= s.nextId
  }

  lemma AppendElement(ids: seq<int>, i: nat)
    requires Distinct(ids) && i < |ids|
    ensures Elems(ids[..i + 1]) == Elems(ids[..i]) + {ids[i]} && ids[i] !in Elems(ids[..i])
  { }

  lemma WantedOne(wanted: seq<int>, i: nat)
    requires i < |wanted|
    ensures wanted[i] in Elems(wanted)
  { }

  lemma AppliedInsert(s: State, t: State, user: int, account: int, done: set<int>, source: int)
    requires Inv(t) && Applied(s, t, account, done) && forall id | id in t.mirror :: t.mirror[id].source != source
    ensures Applied(s, ImportSpec(t, user, account, source), account, done + {source})
  {
    var u := ImportSpec(t, user, account, source);
    ImportDependencies(t, user, account, source);
    assert t.nextId !in t.posts && t.nextId !in t.mirror;
    forall id | id in s.mirror ensures RowSame(s, u, id) {
      assert RowSame(s, t, id);
    }
    assert t.nextId in MappedIds(u, account, Active);
    forall x | x in done ensures x in Sources(u, account, Active) {
      assert x in Sources(t, account, Active);
      var id :| id in MappedIds(t, account, Active) && t.mirror[id].source == x;
      assert id in MappedIds(u, account, Active);
    }
  }

  lemma ImportOnly(s: State, t: State, user: int, account: int, source: int)
    requires Inv(t) && OnlyImports(s, t, user) && t.nextId >= s.nextId
    ensures OnlyImports(s, ImportSpec(t, user, account, source), user)
  {
    var u := ImportSpec(t, user, account, source);
    assert t.nextId !in t.posts;
    forall id | id in s.posts ensures PostSame(s, u, id) {
      assert PostSame(s, t, id);
    }
  }

  lemma AppliedKeep(s: State, t: State, account: int, done: set<int>, id: int)
    requires Applied(s, t, account, done) && id in s.mirror && s.mirror[id].account == account && s.mirror[id].state == Active
    ensures Applied(s, t, account, done + {s.mirror[id].source})
    ensures s.mirror[id].source in Sources(s, account, Active)
  { }

  lemma CountStep(done: set<int>, some: set<int>, x: int)
    requires x !in done
    ensures |(done + {x}) * some| == |done * some| + if x in some then 1 else 0
    ensures |done + {x}| == |done| + 1
  {
    assert (done + {x}) * some == done * some + if x in some then {x} else {};
  }

  /** The first i desired posts were kept or inserted, and counted. */
  ghost predicate AppliedTo(initial: State, start: State, s: State, account: int, wanted: seq<int>, i: nat, kept: nat, inserted: nat)
    requires i <= |wanted|
  {
    && Applied(start, s, account, Elems(wanted[..i]))
    && AllFree(initial, account, Elems(wanted[..i]))
    && kept == |Elems(wanted[..i]) * Sources(initial, account, Active)|
    && kept + inserted == |Elems(wanted[..i])|
  }

  lemma StartsApplied(initial: State, s: State, account: int, wanted: seq<int>)
    requires Inv(s)
    ensures AppliedTo(initial, s, s, account, wanted, 0, 0, 0)
  {
    SyncStarts(s, account);
    assert Elems(wanted[..0]) == {};
    assert {} * Sources(initial, account, Active) == {};
  }

  lemma AppliedOne(initial: State, start: State, s: State, account: int, wanted: seq<int>, i: nat, k: nat, n: nat, kept: nat, inserted: nat)
    requires Distinct(wanted) && i < |wanted|
    requires AllFree(initial, account, Elems(wanted[..i])) && !Blocked(initial, account, wanted[i])
    requires k == |Elems(wanted[..i]) * Sources(initial, account, Active)| && k + n == |Elems(wanted[..i])|
    requires Applied(start, s, account, Elems(wanted[..i]) + {wanted[i]})
    requires if wanted[i] in Sources(initial, account, Active) then kept == k + 1 && inserted == n else kept == k && inserted == n + 1
    ensures AppliedTo(initial, start, s, account, wanted, i + 1, kept, inserted)
  {
    AppendElement(wanted, i);
    CountStep(Elems(wanted[..i]), Sources(initial, account, Active), wanted[i]);
  }

  ghost predicate RetiredTo(s: State, t: State, done: set<int>, soft: nat, hard: nat) {
    Retired(s, t, done) && GoneCollected(s, t, done) && soft + hard == |Leaving(s, done)| && soft == |Staying(s, done)|
  }

  /** Of the retired rows only those that something refers to are left. */
  ghost predicate GoneCollected(s: State, t: State, done: set<int>) {
    forall id | id in done && id in t.mirror :: HasDependency(t.posts, id)
  }

  ghost predicate Parts(ids: set<int>, done: set<int>, todo: set<int>) {
    (forall id :: id in ids <==> id in done || id in todo) && done !! todo
  }

  lemma PartsStep(ids: set<int>, done: set<int>, todo: set<int>, id: int)
    requires Parts(ids, done, todo) && id in todo
    ensures Parts(ids, done + {id}, todo - {id})
  { }

  /** After some obsolete posts of one account were retired or collected. */
  ghost predicate Retired(s: State, t: State, done: set<int>) {
    && (forall id | id in done :: Ended(s, t, id))
    && (forall id | id in s.posts && id !in done :: PostSame(s, t, id))
    && (forall id | id in t.posts :: id in s.posts)
    && (forall id | id in s.mirror && id !in done :: RowSame(s, t, id))
    && (forall id | id in t.mirror :: id in s.mirror && t.mirror[id].account == s.mirror[id].account && t.mirror[id].source == s.mirror[id].source)
    && (forall id | id in t.mirror && id in done :: t.mirror[id].state == Tombstone)
    && SameDependencies(s, t) && t.nextId == s.nextId
  }

  lemma RetiredStep(s: State, t: State, done: set<int>, id: int)
    requires Inv(t) && Retired(s, t, done) && RowSame(s, t, id) && id !in done
    ensures Retired(s, RetireSpec(t, id), done + {id})
    ensures t.mirror[id].state == Tombstone ==> Retired(s, CollectSpec(t, id), done + {id})
  {
    GoneDependencies(t, id, RetireSpec(t, id).posts);
    assert HasDependency(s.posts, id) == HasDependency(t.posts, id);
    RetiredFrame(s, t, RetireSpec(t, id), done, id);
    if HasDependency(t.posts, id) && t.mirror[id].state == Tombstone {
      assert t.posts[id] == t.posts[id].(deleted := true);
      RetiredFrame(s, t, t, done, id);
    }
  }

  lemma RetiredFrame(s: State, t: State, u: State, done: set<int>, id: int)
    requires Retired(s, t, done) && RowSame(s, t, id) && id !in done && SameDependencies(t, u) && u.nextId == t.nextId
    requires forall other | other != id && other in t.mirror && other in t.posts :: RowSame(t, u, other)
    requires forall other | other in u.mirror :: other in t.mirror && u.mirror[other].account == t.mirror[other].account && u.mirror[other].source == t.mirror[other].source
    requires forall other | other in u.mirror && other != id :: u.mirror[other] == t.mirror[other]
    requires forall other | other != id && other in t.posts :: PostSame(t, u, other)
    requires forall other | other in u.posts :: other in t.posts
    requires Ended(s, u, id)
    ensures Retired(s, u, done + {id})
  {
    forall other | other in done + {id} ensures Ended(s, u, other) {
      if other != id {
        assert Ended(s, t, other);
        if other in t.posts { assert PostSame(t, u, other) && RowSame(t, u, other); }
      }
    }
    forall other | other in s.posts && other !in done + {id} ensures PostSame(s, u, other) {
      assert PostSame(s, t, other) && PostSame(t, u, other);
    }
    forall other | other in s.mirror && other !in done + {id} ensures RowSame(s, u, other) {
      assert RowSame(s, t, other) && RowSame(t, u, other);
    }
  }

  ghost function Obsolete(s: State, account: int, wanted: set<int>): set<int> {
    set id | id in s.mirror && s.mirror[id].account == account && s.mirror[id].source !in wanted
  }

  /** What syncing one account does to the tables: its obsolete posts are ended, every other
      post keeps its row, and what is new is an imported post of the account. */
  ghost predicate Settled(s: State, t: State, account: Account, wanted: set<int>) {
    && (forall id | id in Obsolete(s, account.id, wanted) :: Ended(s, t, id))
    && (forall id | id in s.posts && id !in Obsolete(s, account.id, wanted) :: PostSame(s, t, id))
    && (forall id | id in t.posts && id !in s.posts :: id >= s.nextId && ImportedFor(t, account, wanted, id))
  }

  ghost predicate ImportedFor(t: State, account: Account, wanted: set<int>, id: int) {
    && id in t.posts && t.posts[id] == FreshPost(account.user)
    && id in t.mirror && t.mirror[id].account == account.id && t.mirror[id].state == Active && t.mirror[id].source in wanted
  }

  lemma AccountSettled(s: State, t: State, u: State, account: Account, wanted: set<int>)
    requires Inv(s) && Applied(s, t, account.id, wanted) && OnlyImports(s, t, account.user) && Retired(t, u, Obsolete(t, account.id, wanted))
    ensures Settled(s, u, account, wanted)
  {
    SameOld(s, t, account.id, wanted);
    forall id | id in Obsolete(s, account.id, wanted) ensures Ended(s, u, id) {
      assert RowSame(s, t, id) && Ended(t, u, id);
      assert HasDependency(s.posts, id) == HasDependency(t.posts, id);
    }
    forall id | id in s.posts && id !in Obsolete(s, account.id, wanted) ensures PostSame(s, u, id) {
      assert PostSame(s, t, id) && PostSame(t, u, id);
    }
    forall id | id in u.posts && id !in s.posts ensures id >= s.nextId && ImportedFor(u, account, wanted, id) {
      assert id !in s.mirror && RowSame(t, u, id);
    }
  }

  lemma SameOld(s: State, t: State, account: int, wanted: set<int>)
    requires Applied(s, t, account, wanted)
    ensures Obsolete(t, account, wanted) == Obsolete(s, account, wanted)
  {
    forall id ensures id in Obsolete(t, account, wanted) <==> id in Obsolete(s, account, wanted) {
      if id in s.mirror { assert RowSame(s, t, id); }
    }
  }

  class Database {
    var state: State

    constructor ()
      ensures state == EMPTY
    {
      state := EMPTY;
    }

    method IncrementPostReplyCount(id: int) returns (rows: int)
      modifies this
      ensures (state.posts, rows) == IncReply(old(state.posts), id) && state == old(state).(posts := state.posts)
    {
      rows := 0;
      if id in state.posts && !state.posts[id].deleted {
        state := state.(posts := state.posts[id := state.posts[id].(replyCount := state.posts[id].replyCount + 1)]);
        rows := 1;
      }
    }

    method IncrementPostQuoteCount(id: int) returns (rows: int)
      modifies this
      ensures (state.posts, rows) == IncQuote(old(state.posts), id) && state == old(state).(posts := state.posts)
    {
      rows := 0;
      if id in state.posts && !state.posts[id].deleted {
        state := state.(posts := state.posts[id := state.posts[id].(quoteCount := state.posts[id].quoteCount + 1)]);
        rows := 1;
      }
    }

    method DecrementPostReplyCount(id: int) returns (rows: int)
      modifies this
      ensures (state.posts, rows) == DecReply(old(state.posts), id) && state == old(state).(posts := state.posts)
    {
      rows := 0;
      if id in state.posts && state.posts[id].replyCount > 0 {
        state := state.(posts := state.posts[id := state.posts[id].(replyCount := state.posts[id].replyCount - 1)]);
        rows := 1;
      }
    }

    method DecrementPostQuoteCount(id: int) returns (rows: int)
      modifies this
      ensures (state.posts, rows) == DecQuote(old(state.posts), id) && state == old(state).(posts := state.posts)
    {
      rows := 0;
      if id in state.posts && state.posts[id].quoteCount > 0 {
        state := state.(posts := state.posts[id := state.posts[id].(quoteCount := state.posts[id].quoteCount - 1)]);
        rows := 1;
      }
    }

    /** One publishing transaction. */
    method PersistPostGraph(users: set<int>, author: int, replyTo: Option<int>, quote: Option<int>, abort: bool) returns (outcome: Outcome)
      modifies this
      ensures (state, outcome) == CreateSpec(old(state), users, author, replyTo, quote, abort)
      ensures Inv(old(state)) ==> Inv(state) && outcome != Inconsistent
    {
      CreateKeepsIf(state, users, author, replyTo, quote, abort);
      var saved := state;
      if replyTo == Some(0) || quote == Some(0) || (replyTo.Some? && quote.Some?) {
        return Rejected;
      }
      var conversation := None;
      if replyTo.Some? {
        if !PublicPost(state.posts, users, replyTo.value) {
          return NotFound;
        }
        var parent := state.posts[replyTo.value];
        var root := replyTo.value;
        if parent.conversation.Some? && parent.conversation.value != 0 {
          root := parent.conversation.value;
        }
        conversation := Some(root);
      } else if quote.Some? {
        if !PublicPost(state.posts, users, quote.value) {
          return NotFound;
        }
      }
      state := state.(posts := state.posts[state.nextId := Post(author, replyTo, quote, conversation, false, true, 0, 0)], nextId := state.nextId + 1);
      var rows := 1;
      if replyTo.Some? {
        rows := IncrementPostReplyCount(replyTo.value);
      } else if quote.Some? {
        rows := IncrementPostQuoteCount(quote.value);
      }
      if rows != 1 {
        state := saved;
        return Inconsistent;
      }
      if abort {
        state := saved;
        return Rejected;
      }
      outcome := Done;
    }

    /** One deletion by an author. */
    method DeletePostInTransaction(id: int, viewer: int) returns (outcome: Outcome)
      modifies this
      ensures (state, outcome) == DeleteSpec(old(state), id, viewer)
      ensures Inv(old(state)) ==> Inv(state) && outcome != Inconsistent
    {
      DeleteKeepsIf(state, id, viewer);
      var saved := state;
      if id !in state.posts || state.posts[id].deleted {
        return NotFound;
      }
      var post := state.posts[id];
      if post.author != viewer {
        return Forbidden;
      }
      if post.replyTo.Some? {
        if post.replyTo.value !in state.posts {
          return Inconsistent;
        }
        var rows := DecrementPostReplyCount(post.replyTo.value);
        if rows != 1 {
          state := saved;
          return Inconsistent;
        }
      }
      if post.quote.Some? {
        if post.quote.value !in state.posts {
          state := saved;
          return Inconsistent;
        }
        var rows := DecrementPostQuoteCount(post.quote.value);
        if rows != 1 {
          state := saved;
          return Inconsistent;
        }
      }
      state := state.(posts := state.posts[id := state.posts[id].(deleted := true)]);
      outcome := Done;
    }

    /** Content of a kept post is refreshed; a tombstone or deleted post is never reactivated. */
    method SyncExistingPost(id: int) returns (ok: bool)
      requires Inv(state) && id in state.mirror
      ensures ok <==> state.mirror[id].state == Active && !state.posts[id].deleted
    {
      var post := state.posts[id];
      assert RefsOk(state.posts, id);
      if post.replyTo.Some? || post.quote.Some? || post.conversation.Some? {
        assert false;
        return false;
      }
      if state.mirror[id].state == Tombstone || post.deleted {
        return false;
      }
      ok := true;
    }

    method InsertPost(user: int, account: int, source: int)
      modifies this
      ensures state == ImportSpec(old(state), user, account, source)
    {
      var id := state.nextId;
      state := state.(posts := state.posts[id := Post(user, None, None, None, false, true, 0, 0)], nextId := id + 1);
      state := state.(mirror := state.mirror[id := Mapping(account, source, Active)]);
    }

    method LockAndCheckPostDependencies(id: int) returns (count: nat)
      ensures count > 0 <==> HasDependency(state.posts, id)
    {
      var rows := set p | p in state.posts && Refers(state.posts[p], id);
      count := |rows|;
      if count == 0 {
        assert forall p | p in state.posts && Refers(state.posts[p], id) :: p in rows;
      } else {
        var p := Pick(rows);
      }
    }

    method HardDeleteImportedPost(id: int)
      modifies this
      ensures state == old(state).(posts := old(state.posts) - {id}, mirror := old(state.mirror) - {id})
    {
      state := state.(posts := state.posts - {id}, mirror := state.mirror - {id});
    }

    method RetirePost(id: int) returns (soft: bool)
      requires id in state.posts && id in state.mirror
      modifies this
      ensures state == RetireSpec(old(state), id) && soft == HasDependency(old(state.posts), id)
      ensures Ended(old(state), state, id)
      ensures forall other | other != id && other in old(state.posts) :: PostSame(old(state), state, other)
      ensures forall other | other != id :: other in state.mirror <==> other in old(state.mirror)
    {
      var count := LockAndCheckPostDependencies(id);
      if count > 0 {
        state := state.(posts := state.posts[id := state.posts[id].(deleted := true)]);
        state := state.(mirror := state.mirror[id := state.mirror[id].(state := Tombstone)]);
        return true;
      }
      HardDeleteImportedPost(id);
      soft := false;
    }

    method GcTombstone(id: int) returns (collected: bool)
      requires id in state.posts
      modifies this
      ensures state == CollectSpec(old(state), id) && collected == !HasDependency(old(state.posts), id)
    {
      var count := LockAndCheckPostDependencies(id);
      if count > 0 {
        return false;
      }
      HardDeleteImportedPost(id);
      collected := true;
    }

    /** One desired post of an account. `loaded` is the mapping table as read at the start of
        the transaction. */
    method SyncDesiredPost(account: Account, x: int, loaded: map<int, Mapping>, ghost initial: State, ghost start: State, ghost wanted: set<int>, ghost done: set<int>)
      returns (r: DesiredResult)
      requires Inv(state) && Inv(initial) && loaded == initial.mirror
      requires Untouched(initial, start, account.id, wanted) && Applied(start, state, account.id, done)
      requires x in wanted && x !in done && x != EMPTY_ID && OnlyImports(start, state, account.user)
      modifies this
      ensures Inv(state) && (r != Refused ==> OnlyImports(start, state, account.user))
      ensures r == Kept ==> state == old(state)
      ensures r == Refused <==> Blocked(initial, account.id, x)
      ensures r != Refused ==> Applied(start, state, account.id, done + {x})
      ensures r != Refused ==> (r == Kept <==> x in Sources(initial, account.id, Active))
    {
      var mine := set id | id in loaded && loaded[id].account == account.id && loaded[id].source == x;
      if mine != {} {
        var id := Pick(mine);
        MineRow(initial, start, state, account.id, wanted, done, id);
        MineBlocked(initial, account.id, id);
        var synced := SyncExistingPost(id);
        if !synced {
          return Refused;
        }
        AppliedKeep(start, state, account.id, done, id);
        return Kept;
      }
      var other := set id | id in loaded && loaded[id].source == x;
      if other != {} {
        var id := Pick(other);
        assert id !in mine && id in initial.posts;
        return Refused;
      }
      assert forall id | id in initial.mirror :: id !in other;
      FreeSource(initial, start, state, account.id, wanted, done, x);
      AppliedInsert(start, state, account.user, account.id, done, x);
      ImportKeeps(state, account.user, account.id, x);
      ImportOnly(start, state, account.user, account.id, x);
      InsertPost(account.user, account.id, x);
      r := Inserted;
    }

    /** The first half of one account: keep or insert every desired post. */
    method ApplyDesired(account: Account, wanted: seq<int>, loaded: map<int, Mapping>, ghost initial: State) returns (ok: bool, kept: nat, inserted: nat)
      requires Inv(state) && Inv(initial) && loaded == initial.mirror && Distinct(wanted) && EMPTY_ID !in wanted
      requires Untouched(initial, state, account.id, Elems(wanted))
      modifies this
      ensures Inv(state)
      ensures ok <==> AllFree(initial, account.id, Elems(wanted))
      ensures ok ==> Applied(old(state), state, account.id, Elems(wanted)) && OnlyImports(old(state), state, account.user)
      ensures ok ==> kept == |Elems(wanted) * Sources(initial, account.id, Active)| && kept + inserted == |Elems(wanted)|
      ensures ok && inserted == 0 ==> state == old(state)
    {
      kept, inserted := 0, 0;
      ghost var start := state;
      StartsApplied(initial, state, account.id, wanted);
      for i := 0 to |wanted|
        invariant Inv(state) && AppliedTo(initial, start, state, account.id, wanted, i, kept, inserted)
        invariant OnlyImports(start, state, account.user)
        invariant inserted == 0 ==> state == start
      {
        AppendElement(wanted, i);
        WantedOne(wanted, i);
        var r := SyncDesiredPost(account, wanted[i], loaded, initial, start, Elems(wanted), Elems(wanted[..i]));
        if r == Refused {
          return false, 0, 0;
        }
        ghost var k, n := kept, inserted;
        if r == Kept {
          kept := kept + 1;
        } else {
          inserted := inserted + 1;
        }
        AppliedOne(initial, start, state, account.id, wanted, i, k, n, kept, inserted);
      }
      WholeList(wanted);
      ok := true;
    }

    /** One obsolete mapping of an account. */
    method RetireOrCollect(id: int, mapping: MirrorState, ghost start: State, ghost done: set<int>) returns (soft: nat, hard: nat)
      requires Inv(state) && Retired(start, state, done) && id in start.mirror && id !in done && start.mirror[id].state == mapping
      modifies this
      ensures Inv(state) && Retired(start, state, done + {id})
      ensures GoneCollected(start, old(state), done) ==> GoneCollected(start, state, done + {id})
      ensures soft + hard == if mapping == Active || !HasDependency(start.posts, id) then 1 else 0
      ensures soft == if mapping == Active && HasDependency(start.posts, id) then 1 else 0
      ensures soft + hard == 0 ==> state == old(state)
    {
      soft, hard := 0, 0;
      assert RowSame(start, state, id);
      RetireKeeps(state, id);
      RetiredStep(start, state, done, id);
      assert HasDependency(start.posts, id) == HasDependency(state.posts, id);
      match mapping {
        case Active =>
          var wasSoft := RetirePost(id);
          if wasSoft {
            soft := 1;
          } else {
            hard := 1;
          }
        case Tombstone =>
          var collected := GcTombstone(id);
          if collected {
            hard := 1;
          }
      }
    }

    /** Retires or collects some mappings, in any order. */
    method RetireAll(ids: set<int>, loaded: map<int, Mapping>) returns (soft: nat, hard: nat)
      requires Inv(state) && forall id | id in ids :: id in loaded && id in state.mirror && state.mirror[id] == loaded[id]
      modifies this
      ensures Inv(state) && Retired(old(state), state, ids) && GoneCollected(old(state), state, ids)
      ensures soft + hard == |Leaving(old(state), ids)| && soft == |Staying(old(state), ids)|
      ensures soft + hard == 0 ==> state == old(state)
    {
      soft, hard := 0, 0;
      ghost var start := state;
      SyncStarts(state, 0);
      var todo := ids;
      ghost var done: set<int> := {};
      while todo != {}
        invariant Inv(state) && RetiredTo(start, state, done, soft, hard)
        invariant Parts(ids, done, todo)
        invariant soft + hard == 0 ==> state == start
        decreases |todo|
      {
        var id := Pick(todo);
        LeavingStep(start, done, id);
        StayingStep(start, done, id);
        PartsStep(ids, done, todo, id);
        var s, h := RetireOrCollect(id, loaded[id].state, start, done);
        soft, hard := soft + s, hard + h;
        todo := todo - {id};
        done := done + {id};
      }
      forall id ensures id in done <==> id in ids { }
      assert done == ids;
    }

    /** The second half of one account: retire what is no longer desired. */
    method RetireRest(account: int, wanted: seq<int>, loaded: map<int, Mapping>) returns (soft: nat, hard: nat)
      requires Inv(state)
      requires forall id | id in loaded && loaded[id].account == account :: id in state.mirror && state.mirror[id] == loaded[id]
      requires forall id | id in Obsolete(state, account, Elems(wanted)) :: id in loaded && loaded[id] == state.mirror[id]
      modifies this
      ensures Inv(state) && Retired(old(state), state, Obsolete(old(state), account, Elems(wanted)))
      ensures GoneCollected(old(state), state, Obsolete(old(state), account, Elems(wanted)))
      ensures soft + hard == |Retirable(old(state), account, Elems(wanted))| + |Collectable(old(state), account, Elems(wanted))|
      ensures soft == |SoftRetirable(old(state), account, Elems(wanted))|
      ensures soft + hard == 0 ==> state == old(state)
    {
      var todo := set id | id in loaded && loaded[id].account == account && loaded[id].source !in wanted;
      LoadedObsolete(state, account, wanted, loaded, todo);
      LeavingSplit(state, account, Elems(wanted));
      StayingSplit(state, account, Elems(wanted));
      soft, hard := RetireAll(todo, loaded);
    }

    /** One account of the desired state. */
    method SyncAccount(account: Account, wanted: seq<int>, loaded: map<int, Mapping>, ghost initial: State) returns (ok: bool, result: Counters)
      requires Inv(state) && Inv(initial) && loaded == initial.mirror && Distinct(wanted) && EMPTY_ID !in wanted
      requires Untouched(initial, state, account.id, Elems(wanted))
      modifies this
      ensures ok <==> AllFree(initial, account.id, Elems(wanted))
      ensures ok ==> Inv(state) && Inv(old(state)) && AccountStep(old(state), state, account.id, Elems(wanted))
      ensures ok ==> Reached(state, account.id, Elems(wanted)) && Settled(old(state), state, account, Elems(wanted))
      ensures ok ==> CountsDiff(initial, account.id, Elems(wanted), result)
      ensures ok && NoChange(result) ==> state == old(state)
    {
      ghost var start := state;
      var applied, kept, inserted := ApplyDesired(account, wanted, loaded, initial);
      if !applied {
        return false, Counters(0, 0, 0, 0, 0);
      }
      ghost var middle := state;
      AppliedRows(initial, start, middle, account.id, Elems(wanted));
      var soft, hard := RetireRest(account.id, wanted, loaded);
      AccountDone(start, middle, state, account.id, Elems(wanted));
      AccountSettled(start, middle, state, account, Elems(wanted));
      AccountSettles(initial, start, middle, state, account.id, Elems(wanted));
      DiffCounts(initial, account.id, Elems(wanted));
      result := Counters(kept, inserted, 0, soft, hard);
      ok := true;
    }

    /** The whole transaction: either every enabled account ends with exactly its desired active
        posts, with counters that match the diff, or nothing changes. Where the desired state has
        been reached already, as after a sync that is replayed, it succeeds, keeps every desired
        post, inserts and retires nothing and leaves the database as it is. */
    method SyncPosts(accounts: seq<Account>, desired: map<int, seq<int>>) returns (ok: bool, result: Counters)
      requires Inv(state) && ValidDesired(accounts, desired)
      modifies this
      ensures ok <==> FreeTo(old(state), accounts, desired, |accounts|)
      ensures !ok ==> state == old(state)
      ensures ok ==> Inv(state) && ReachedTo(state, accounts, desired, |accounts|)
      ensures ok ==> Swept(old(state), state, accounts, desired, |accounts|)
      ensures ok ==> Matches(result, DiffTotals(old(state), accounts, desired))
      ensures ok && NoChange(result) ==> state == old(state)
      ensures ReachedTo(old(state), accounts, desired, |accounts|) ==>
        ok && state == old(state) && result == Counters(TotalWanted(accounts, desired), 0, 0, 0, 0)
    {
      ghost var before := state;
      ok, result := SyncAll(accounts, desired);
      if ReachedTo(before, accounts, desired, |accounts|) {
        Replayed(before, state, accounts, desired, ok, result);
      }
    }

    /** Every account in turn, and all or nothing. */
    method SyncAll(accounts: seq<Account>, desired: map<int, seq<int>>) returns (ok: bool, result: Counters)
      requires Inv(state) && ValidDesired(accounts, desired)
      modifies this
      ensures ok <==> FreeTo(old(state), accounts, desired, |accounts|)
      ensures !ok ==> state == old(state)
      ensures ok ==> Inv(state) && ReachedTo(state, accounts, desired, |accounts|)
      ensures ok ==> Swept(old(state), state, accounts, desired, |accounts|)
      ensures ok ==> Matches(result, DiffTotals(old(state), accounts, desired))
      ensures ok && NoChange(result) ==> state == old(state)
    {
      var saved := state;
      result := Counters(0, 0, 0, 0, 0);
      SyncBegins(saved, accounts, desired);
      for i := 0 to |accounts|
        invariant Progress(saved, state, accounts, desired, i, result)
      {
        ok, result := SyncNext(accounts, desired, i, saved, result);
        if !ok {
          state := saved;
          return false, Counters(0, 0, 0, 0, 0);
        }
      }
      WholeList(accounts);
      ok := true;
    }

    /** The next account of the transaction. */
    method SyncNext(accounts: seq<Account>, desired: map<int, seq<int>>, i: nat, saved: State, result: Counters) returns (ok: bool, sum: Counters)
      requires Inv(saved) && ValidDesired(accounts, desired) && i < |accounts| && Progress(saved, state, accounts, desired, i, result)
      modifies this
      ensures ok <==> AllFree(saved, accounts[i].id, Elems(Wanted(desired, accounts[i].id)))
      ensures ok ==> Progress(saved, state, accounts, desired, i + 1, sum)
    {
      var account := accounts[i];
      ghost var before := state;
      var r;
      ok, r := SyncAccount(account, Wanted(desired, account.id), saved.mirror, saved);
      sum := Add(result, r);
      if ok {
        SyncedStep(saved, before, state, accounts, desired, i);
        SweptStep(saved, before, state, accounts, desired, i);
        TotalsStep(saved, accounts, desired, i, result, r);
      }
    }
  }

  function Add(c: Counters, d: Counters): Counters {
    Counters(c.kept + d.kept, c.inserted + d.inserted, c.reactivated + d.reactivated, c.retiredSoft + d.retiredSoft, c.retiredHard + d.retiredHard)
  }

  lemma WholeList<T>(s: seq<T>)
    ensures s[..|s|] == s
  { }

  /** A sync that inserts and retires nothing. */
  predicate NoChange(c: Counters) {
    c.inserted == 0 && c.retiredSoft + c.retiredHard == 0
  }

  /** No desired post of the first i accounts is refused. */
  ghost predicate FreeTo(s: State, accounts: seq<Account>, desired: map<int, seq<int>>, i: nat)
    requires i <= |accounts|
  {
    forall k | 0 <= k < i :: AllFree(s, accounts[k].id, Elems(Wanted(desired, accounts[k].id)))
  }

  /** The first i accounts are where the desired state wants them. */
  ghost predicate ReachedTo(s: State, accounts: seq<Account>, desired: map<int, seq<int>>, i: nat)
    requires i <= |accounts|
  {
    forall k | 0 <= k < i :: Reached(s, accounts[k].id, Elems(Wanted(desired, accounts[k].id)))
  }

  /** The first i accounts are done; the others are as they were loaded. */
  ghost predicate SyncedTo(initial: State, s: State, accounts: seq<Account>, desired: map<int, seq<int>>, i: nat)
    requires i <= |accounts|
  {
    && FreeTo(initial, accounts, desired, i)
    && ReachedTo(s, accounts, desired, i)
    && (forall k | i <= k < |accounts| :: Untouched(initial, s, accounts[k].id, Elems(Wanted(desired, accounts[k].id))))
  }

  ghost predicate Progress(initial: State, s: State, accounts: seq<Account>, desired: map<int, seq<int>>, i: nat, c: Counters)
    requires i <= |accounts|
  {
    && Inv(s)
    && SyncedTo(initial, s, accounts, desired, i)
    && Swept(initial, s, accounts, desired, i)
    && Matches(c, DiffTotals(initial, accounts[..i], desired))
    && (NoChange(c) ==> s == initial)
  }

  /** The posts of the first i accounts that are no longer desired. */
  ghost function ObsoleteTo(s: State, accounts: seq<Account>, desired: map<int, seq<int>>, i: nat): set<int>
    requires i <= |accounts|
  {
    if i == 0 then {}
    else ObsoleteTo(s, accounts, desired, i - 1) + Obsolete(s, accounts[i - 1].id, Elems(Wanted(desired, accounts[i - 1].id)))
  }

  /** What the sync has done to the tables: exactly the posts that are no longer desired are
      ended, every other post keeps its row, and what is new was imported. */
  ghost predicate Swept(initial: State, s: State, accounts: seq<Account>, desired: map<int, seq<int>>, i: nat)
    requires i <= |accounts|
  {
    && (forall id | id in ObsoleteTo(initial, accounts, desired, i) :: Ended(initial, s, id))
    && (forall id | id in initial.posts && id !in ObsoleteTo(initial, accounts, desired, i) :: PostSame(initial, s, id))
    && (forall id | id in s.posts && id !in initial.posts :: id >= initial.nextId && Imported(s, accounts, desired, i, id))
    && s.nextId >= initial.nextId
  }

  ghost predicate Imported(s: State, accounts: seq<Account>, desired: map<int, seq<int>>, i: nat, id: int)
    requires i <= |accounts|
  {
    exists k | 0 <= k < i :: ImportedFor(s, accounts[k], Elems(Wanted(desired, accounts[k].id)), id)
  }

  lemma {:induction false} ObsoleteToOwners(s: State, accounts: seq<Account>, desired: map<int, seq<int>>, i: nat, id: int)
    requires i <= |accounts|
    ensures id in ObsoleteTo(s, accounts, desired, i) ==>
      id in s.mirror && exists k | 0 <= k < i :: accounts[k].id == s.mirror[id].account
  {
    if i > 0 {
      ObsoleteToOwners(s, accounts, desired, i - 1, id);
    }
  }

  lemma ObsoleteSame(initial: State, s: State, account: int, wanted: set<int>)
    requires Untouched(initial, s, account, wanted)
    ensures Obsolete(s, account, wanted) == Obsolete(initial, account, wanted)
  {
    forall id ensures id in Obsolete(s, account, wanted) <==> id in Obsolete(initial, account, wanted) {
      if id in Obsolete(initial, account, wanted) { assert RowSame(initial, s, id); }
    }
  }

  lemma EndedStays(initial: State, s: State, t: State, account: Account, wanted: set<int>, id: int)
    requires Inv(initial) && Ended(initial, s, id) && initial.mirror[id].account != account.id
    requires AccountStep(s, t, account.id, wanted) && Settled(s, t, account, wanted) && s.nextId >= initial.nextId
    ensures Ended(initial, t, id)
  {
    if id in s.mirror {
      assert RowSame(s, t, id);
    }
    assert id < initial.nextId;
  }

  lemma EndedNow(initial: State, s: State, t: State, account: Account, wanted: set<int>, id: int)
    requires Untouched(initial, s, account.id, wanted) && Settled(s, t, account, wanted) && id in Obsolete(initial, account.id, wanted)
    ensures Ended(initial, t, id)
  {
    ObsoleteSame(initial, s, account.id, wanted);
    assert RowSame(initial, s, id) && Ended(s, t, id);
    assert HasDependency(initial.posts, id) == HasDependency(s.posts, id);
  }

  lemma ImportedStays(s: State, t: State, accounts: seq<Account>, desired: map<int, seq<int>>, i: nat, id: int)
    requires ValidDesired(accounts, desired) && i < |accounts| && Imported(s, accounts, desired, i, id)
    requires AccountStep(s, t, accounts[i].id, Elems(Wanted(desired, accounts[i].id)))
    ensures Imported(t, accounts, desired, i + 1, id)
  {
    var k :| 0 <= k < i && ImportedFor(s, accounts[k], Elems(Wanted(desired, accounts[k].id)), id);
    assert RowSame(s, t, id);
    assert ImportedFor(t, accounts[k], Elems(Wanted(desired, accounts[k].id)), id);
  }

  lemma SweptStep(initial: State, s: State, t: State, accounts: seq<Account>, desired: map<int, seq<int>>, i: nat)
    requires Inv(initial) && Inv(s) && ValidDesired(accounts, desired) && i < |accounts| && Swept(initial, s, accounts, desired, i)
    requires
      var a := accounts[i];
      var w := Elems(Wanted(desired, a.id));
      Untouched(initial, s, a.id, w) && AccountStep(s, t, a.id, w) && Settled(s, t, a, w)
    ensures Swept(initial, t, accounts, desired, i + 1)
  {
    var a, w := accounts[i], Elems(Wanted(desired, accounts[i].id));
    var before, now := ObsoleteTo(initial, accounts, desired, i), Obsolete(initial, a.id, w);
    ObsoleteSame(initial, s, a.id, w);
    forall id | id in before + now ensures Ended(initial, t, id) {
      if id in now {
        EndedNow(initial, s, t, a, w, id);
      } else {
        ObsoleteToOwners(initial, accounts, desired, i, id);
        EndedStays(initial, s, t, a, w, id);
      }
    }
    forall id | id in initial.posts && id !in before + now ensures PostSame(initial, t, id) {
      assert PostSame(initial, s, id) && PostSame(s, t, id);
    }
    forall id | id in t.posts && id !in initial.posts ensures id >= initial.nextId && Imported(t, accounts, desired, i + 1, id) {
      if id in s.posts {
        ImportedStays(s, t, accounts, desired, i, id);
      } else {
        assert ImportedFor(t, a, w, id);
      }
    }
  }

  lemma SyncBegins(s: State, accounts: seq<Account>, desired: map<int, seq<int>>)
    requires Inv(s)
    ensures Progress(s, s, accounts, desired, 0, Counters(0, 0, 0, 0, 0))
  { }

  lemma SyncedStep(initial: State, s: State, t: State, accounts: seq<Account>, desired: map<int, seq<int>>, i: nat)
    requires Inv(initial) && Inv(s) && Inv(t) && ValidDesired(accounts, desired) && i < |accounts| && SyncedTo(initial, s, accounts, desired, i)
    requires
      var a := accounts[i].id;
      var w := Elems(Wanted(desired, a));
      AllFree(initial, a, w) && AccountStep(s, t, a, w) && Reached(t, a, w)
    ensures SyncedTo(initial, t, accounts, desired, i + 1)
  {
    forall k | 0 <= k < |accounts| && k != i
      ensures k < i ==> Reached(t, accounts[k].id, Elems(Wanted(desired, accounts[k].id)))
      ensures k > i ==> Untouched(initial, t, accounts[k].id, Elems(Wanted(desired, accounts[k].id)))
    {
      OtherOne(initial, s, t, accounts, desired, i, k);
    }
  }

  lemma OtherOne(initial: State, s: State, t: State, accounts: seq<Account>, desired: map<int, seq<int>>, i: nat, k: nat)
    requires Inv(initial) && Inv(s) && Inv(t) && ValidDesired(accounts, desired) && i < |accounts| && k < |accounts| && k != i
    requires AccountStep(s, t, accounts[i].id, Elems(Wanted(desired, accounts[i].id)))
    ensures Reached(s, accounts[k].id, Elems(Wanted(desired, accounts[k].id))) ==> Reached(t, accounts[k].id, Elems(Wanted(desired, accounts[k].id)))
    ensures Untouched(initial, s, accounts[k].id, Elems(Wanted(desired, accounts[k].id))) ==> Untouched(initial, t, accounts[k].id, Elems(Wanted(desired, accounts[k].id)))
  {
    var a, b := accounts[i].id, accounts[k].id;
    var mine, theirs := Elems(Wanted(desired, a)), Elems(Wanted(desired, b));
    assert a != b && mine !! theirs;
    if Reached(s, b, theirs) {
      OtherReached(s, t, a, mine, b, theirs);
    }
    if Untouched(initial, s, b, theirs) {
      OtherUntouched(initial, s, t, a, mine, b, theirs);
    }
  }

  // ---------------------------------------------------------------------------
  // The specification of the sync
  // ---------------------------------------------------------------------------

  function Wanted(desired: map<int, seq<int>>, account: int): seq<int> {
    if account in desired then desired[account] else []
  }

  /** What snapshot validation guarantees: accounts and source ids are not repeated, and source
      ids are not empty. */
  ghost predicate ValidDesired(accounts: seq<Account>, desired: map<int, seq<int>>) {
    && (forall i, j | 0 <= i < j < |accounts| :: accounts[i].id != accounts[j].id)
    && (forall i | 0 <= i < |accounts| :: Distinct(Wanted(desired, accounts[i].id)) && EMPTY_ID !in Wanted(desired, accounts[i].id))
    && (forall i, j | 0 <= i < |accounts| && 0 <= j < |accounts| && i != j ::
          Elems(Wanted(desired, accounts[i].id)) !! Elems(Wanted(desired, accounts[j].id)))
  }

  /** The account's active posts are the desired ones, none of them is refused, and no
      tombstone of it is left that nothing refers to. */
  ghost predicate Reached(s: State, account: int, wanted: set<int>) {
    && Sources(s, account, Active) == wanted
    && AllFree(s, account, wanted)
    && Collectable(s, account, wanted) == {}
  }

  /** The diff of one account's source ids. */
  ghost function AccountDiff(s: State, account: int, wanted: set<int>): Diff {
    DiffOf(Sources(s, account, Active), Sources(s, account, Tombstone), wanted)
  }

  /** It is what CalculateDesiredStateDiff returns for lists of the account's source ids. */
  lemma DiffOfLists(s: State, account: int, active: seq<int>, tombstone: seq<int>, desired: seq<int>)
    requires Inv(s) && EMPTY_ID !in desired
    requires Elems(active) == Sources(s, account, Active) && Elems(tombstone) == Sources(s, account, Tombstone)
    ensures DiffOf(IdsOf(active), IdsOf(tombstone), IdsOf(desired)) == AccountDiff(s, account, Elems(desired))
  {
    forall x ensures x in IdsOf(active) <==> x in Elems(active) {
      assert x in Elems(active) ==> x in Sources(s, account, Active);
    }
    forall x ensures x in IdsOf(tombstone) <==> x in Elems(tombstone) {
      assert x in Elems(tombstone) ==> x in Sources(s, account, Tombstone);
    }
    forall x ensures x in IdsOf(desired) <==> x in Elems(desired) { }
    assert IdsOf(active) == Elems(active) && IdsOf(tombstone) == Elems(tombstone) && IdsOf(desired) == Elems(desired);
  }

  lemma SortIdsSize(s: set<int>)
    ensures |SortIds(s)| == |s|
  {
    SortDescSpec(s, IdKey);
  }

  /** The counters of one account are the lengths of its diff's lists; nothing is reactivated,
      and collected tombstones count as retired. */
  ghost predicate CountsDiff(s: State, account: int, wanted: set<int>, c: Counters) {
    Matches(c, Sizes(s, account, wanted))
  }

  /** `soft` counts those of the retired that stay as tombstones. */
  datatype Totals = Totals(keep: nat, insert: nat, reactivate: nat, retire: nat, collect: nat, soft: nat)

  ghost function Sizes(s: State, account: int, wanted: set<int>): Totals {
    var diff := AccountDiff(s, account, wanted);
    Totals(|diff.keep|, |diff.insert|, |diff.reactivate|, |diff.retire|, |Collectable(s, account, wanted)|, |SoftRetirable(s, account, wanted)|)
  }

  ghost predicate Matches(c: Counters, t: Totals) {
    && c.kept == t.keep
    && c.inserted == t.insert
    && c.reactivated == t.reactivate == 0
    && c.retiredSoft == t.soft
    && c.retiredSoft + c.retiredHard == t.retire + t.collect
  }

  function AddTotals(t: Totals, u: Totals): Totals {
    Totals(t.keep + u.keep, t.insert + u.insert, t.reactivate + u.reactivate, t.retire + u.retire, t.collect + u.collect, t.soft + u.soft)
  }

  /** The lengths of the diffs of all accounts together. */
  ghost function DiffTotals(s: State, accounts: seq<Account>, desired: map<int, seq<int>>): Totals {
    if accounts == [] then Totals(0, 0, 0, 0, 0, 0)
    else
      var a := accounts[|accounts| - 1].id;
      AddTotals(DiffTotals(s, accounts[..|accounts| - 1], desired), Sizes(s, a, Elems(Wanted(desired, a))))
  }

  lemma {:induction false} TotalsStep(s: State, accounts: seq<Account>, desired: map<int, seq<int>>, i: nat, c: Counters, d: Counters)
    requires i < |accounts| && Matches(c, DiffTotals(s, accounts[..i], desired))
    requires Matches(d, Sizes(s, accounts[i].id, Elems(Wanted(desired, accounts[i].id))))
    ensures Matches(Add(c, d), DiffTotals(s, accounts[..i + 1], desired))
  {
    assert accounts[..i + 1][..i] == accounts[..i];
  }

  ghost function TotalWanted(accounts: seq<Account>, desired: map<int, seq<int>>): nat {
    if accounts == [] then 0
    else TotalWanted(accounts[..|accounts| - 1], desired) + |Wanted(desired, accounts[|accounts| - 1].id)|
  }

  lemma {:induction false} DistinctSize(ids: seq<int>)
    requires Distinct(ids)
    ensures |Elems(ids)| == |ids|
  {
    if ids != [] {
      var n := |ids| - 1;
      DistinctSize(ids[..n]);
      assert ids[..n + 1] == ids;
      AppendElement(ids, n);
    }
  }

  /** Where the desired state has been reached the diff keeps everything and does nothing else. */
  lemma ReachedSizes(s: State, account: int, wanted: seq<int>)
    requires Inv(s) && Reached(s, account, Elems(wanted)) && Distinct(wanted)
    ensures Sizes(s, account, Elems(wanted)) == Totals(|wanted|, 0, 0, 0, 0, 0)
  {
    var w := Elems(wanted);
    NoTombstoneWanted(s, account, w);
    assert w * w == w && w - w - Sources(s, account, Tombstone) == {} && w * Sources(s, account, Tombstone) - w == {} && w - w == {};
    SortIdsSize(w);
    SortIdsSize({});
    DistinctSize(wanted);
  }

  ghost predicate OnlyKeeps(s: State, account: int, wanted: seq<int>) {
    Sizes(s, account, Elems(wanted)) == Totals(|wanted|, 0, 0, 0, 0, 0)
  }

  lemma {:induction false} SumKeeps(s: State, accounts: seq<Account>, desired: map<int, seq<int>>)
    requires forall i | 0 <= i < |accounts| :: OnlyKeeps(s, accounts[i].id, Wanted(desired, accounts[i].id))
    ensures DiffTotals(s, accounts, desired) == Totals(TotalWanted(accounts, desired), 0, 0, 0, 0, 0)
  {
    if accounts != [] {
      var n := |accounts| - 1;
      var front := accounts[..n];
      forall i | 0 <= i < n ensures OnlyKeeps(s, front[i].id, Wanted(desired, front[i].id)) {
        assert front[i] == accounts[i];
      }
      SumKeeps(s, front, desired);
      assert OnlyKeeps(s, accounts[n].id, Wanted(desired, accounts[n].id));
    }
  }

  lemma {:induction false} ReachedTotals(s: State, accounts: seq<Account>, desired: map<int, seq<int>>)
    requires Inv(s) && forall i | 0 <= i < |accounts| :: Distinct(Wanted(desired, accounts[i].id))
    requires ReachedTo(s, accounts, desired, |accounts|)
    ensures DiffTotals(s, accounts, desired) == Totals(TotalWanted(accounts, desired), 0, 0, 0, 0, 0)
  {
    forall i | 0 <= i < |accounts| ensures OnlyKeeps(s, accounts[i].id, Wanted(desired, accounts[i].id)) {
      ReachedSizes(s, accounts[i].id, Wanted(desired, accounts[i].id));
    }
    SumKeeps(s, accounts, desired);
  }

  lemma ReachedIsFree(s: State, accounts: seq<Account>, desired: map<int, seq<int>>)
    requires ReachedTo(s, accounts, desired, |accounts|)
    ensures FreeTo(s, accounts, desired, |accounts|)
  {
    forall k | 0 <= k < |accounts| ensures AllFree(s, accounts[k].id, Elems(Wanted(desired, accounts[k].id))) {
      assert Reached(s, accounts[k].id, Elems(Wanted(desired, accounts[k].id)));
    }
  }

  lemma MatchesKeeps(c: Counters, t: Totals, n: nat)
    requires Matches(c, t) && t == Totals(n, 0, 0, 0, 0, 0)
    ensures c == Counters(n, 0, 0, 0, 0) && NoChange(c)
  { }

  /** A sync from where the desired state has been reached. */
  lemma {:induction false} Replayed(s: State, t: State, accounts: seq<Account>, desired: map<int, seq<int>>, ok: bool, c: Counters)
    requires Inv(s) && ValidDesired(accounts, desired) && (ok <==> FreeTo(s, accounts, desired, |accounts|))
    requires ok ==> Matches(c, DiffTotals(s, accounts, desired))
    requires ok && NoChange(c) ==> t == s
    requires ReachedTo(s, accounts, desired, |accounts|)
    ensures ok && t == s && c == Counters(TotalWanted(accounts, desired), 0, 0, 0, 0)
  {
    ReachedIsFree(s, accounts, desired);
    ReachedTotals(s, accounts, desired);
    MatchesKeeps(c, DiffTotals(s, accounts, desired), TotalWanted(accounts, desired));
  }

  /** What syncing one account may do to the mapping table. */
  ghost predicate AccountStep(s: State, t: State, account: int, wanted: set<int>) {
    && (forall id | id in s.mirror && s.mirror[id].account != account :: RowSame(s, t, id))
    && (forall id | id in t.mirror && id !in s.mirror :: t.mirror[id].account == account && t.mirror[id].source in wanted && id >= s.nextId)
    && (forall id | id in t.mirror && id in s.mirror :: t.mirror[id].account == s.mirror[id].account && t.mirror[id].source == s.mirror[id].source)
    && SameDependencies(s, t) && t.nextId >= s.nextId
  }

  lemma OtherReached(s: State, t: State, account: int, wanted: set<int>, other: int, theirs: set<int>)
    requires Inv(s) && Inv(t) && AccountStep(s, t, account, wanted) && other != account && wanted !! theirs && Reached(s, other, theirs)
    ensures Reached(t, other, theirs)
  {
    OtherSources(s, t, account, wanted, other);
    forall x | x in theirs ensures !Blocked(t, other, x) {
      assert !Blocked(s, other, x);
      var id :| id in MappedIds(s, other, Active) && s.mirror[id].source == x;
      assert RowSame(s, t, id);
    }
    OtherCollectable(s, t, account, wanted, other, theirs);
    assert forall id :: id in Collectable(t, other, theirs) ==> id in Collectable(s, other, theirs);
  }

  lemma OtherCollectable(s: State, t: State, account: int, wanted: set<int>, other: int, theirs: set<int>)
    requires AccountStep(s, t, account, wanted) && other != account
    ensures Collectable(t, other, theirs) <= Collectable(s, other, theirs)
  {
    forall id | id in Collectable(t, other, theirs) ensures id in Collectable(s, other, theirs) {
      assert id in s.mirror;
      assert RowSame(s, t, id);
      assert HasDependency(s.posts, id) == HasDependency(t.posts, id);
    }
  }

  lemma OtherSources(s: State, t: State, account: int, wanted: set<int>, other: int)
    requires AccountStep(s, t, account, wanted) && other != account
    ensures Sources(t, other, Active) == Sources(s, other, Active)
  {
    forall id ensures id in MappedIds(t, other, Active) <==> id in MappedIds(s, other, Active) {
      if id in MappedIds(s, other, Active) { assert RowSame(s, t, id); }
    }
    assert MappedIds(t, other, Active) == MappedIds(s, other, Active);
    forall id | id in MappedIds(s, other, Active) ensures t.mirror[id] == s.mirror[id] {
      assert RowSame(s, t, id);
    }
  }

  lemma OtherUntouched(initial: State, s: State, t: State, account: int, wanted: set<int>, other: int, theirs: set<int>)
    requires Inv(initial) && AccountStep(s, t, account, wanted) && other != account && wanted !! theirs
    requires Untouched(initial, s, other, theirs)
    ensures Untouched(initial, t, other, theirs)
  { }

  lemma AppliedRows(initial: State, s: State, t: State, account: int, wanted: set<int>)
    requires Inv(initial) && Untouched(initial, s, account, wanted) && Applied(s, t, account, wanted)
    ensures forall id | id in initial.mirror && initial.mirror[id].account == account :: id in t.mirror && t.mirror[id] == initial.mirror[id]
    ensures forall id | id in Obsolete(t, account, wanted) :: id in initial.mirror && initial.mirror[id] == t.mirror[id]
    ensures Retirable(t, account, wanted) == Retirable(initial, account, wanted)
    ensures Collectable(t, account, wanted) == Collectable(initial, account, wanted)
    ensures SoftRetirable(t, account, wanted) == SoftRetirable(initial, account, wanted)
  {
    forall id | id in initial.mirror && initial.mirror[id].account == account ensures id in t.mirror && t.mirror[id] == initial.mirror[id] {
      assert RowSame(initial, s, id);
      assert RowSame(s, t, id);
    }
    forall id | id in Obsolete(t, account, wanted) ensures id in initial.mirror && initial.mirror[id] == t.mirror[id] {
      assert id in s.mirror;
      assert RowSame(s, t, id);
    }
    SameObsolete(initial, s, t, account, wanted);
  }

  lemma SameObsolete(initial: State, s: State, t: State, account: int, wanted: set<int>)
    requires SameDependencies(initial, s) && SameDependencies(s, t)
    requires forall id | id in initial.mirror && initial.mirror[id].account == account :: id in t.mirror && t.mirror[id] == initial.mirror[id]
    requires forall id | id in Obsolete(t, account, wanted) :: id in initial.mirror && initial.mirror[id] == t.mirror[id]
    ensures Retirable(t, account, wanted) == Retirable(initial, account, wanted)
    ensures Collectable(t, account, wanted) == Collectable(initial, account, wanted)
    ensures SoftRetirable(t, account, wanted) == SoftRetirable(initial, account, wanted)
  {
    forall id ensures id in Obsolete(t, account, wanted) <==> id in Obsolete(initial, account, wanted) {
    }
    forall id ensures id in Retirable(t, account, wanted) <==> id in Retirable(initial, account, wanted) {
      assert id in Obsolete(t, account, wanted) <==> id in Obsolete(initial, account, wanted);
    }
    forall id ensures id in SoftRetirable(t, account, wanted) <==> id in SoftRetirable(initial, account, wanted) {
      assert id in Retirable(t, account, wanted) <==> id in Retirable(initial, account, wanted);
      assert HasDependency(initial.posts, id) == HasDependency(s.posts, id) == HasDependency(t.posts, id);
    }
    forall id ensures id in Collectable(t, account, wanted) <==> id in Collectable(initial, account, wanted) {
      assert id in Obsolete(t, account, wanted) <==> id in Obsolete(initial, account, wanted);
      assert HasDependency(initial.posts, id) == HasDependency(s.posts, id) == HasDependency(t.posts, id);
    }
  }

  lemma AccountDone(s: State, t: State, u: State, account: int, wanted: set<int>)
    requires Applied(s, t, account, wanted) && Retired(t, u, Obsolete(t, account, wanted))
    ensures AccountStep(s, u, account, wanted)
    ensures Sources(u, account, Active) == wanted
  {
    forall id | id in s.mirror && s.mirror[id].account != account ensures RowSame(s, u, id) {
      assert RowSame(s, t, id);
      assert RowSame(t, u, id);
    }
    forall id | id in u.mirror && id in s.mirror ensures u.mirror[id].account == s.mirror[id].account && u.mirror[id].source == s.mirror[id].source {
      assert RowSame(s, t, id);
    }
    forall x ensures x in Sources(u, account, Active) <==> x in wanted {
      if x in Sources(u, account, Active) {
        var id :| id in MappedIds(u, account, Active) && u.mirror[id].source == x;
        assert id !in Obsolete(t, account, wanted);
      }
      if x in wanted {
        assert x in Sources(t, account, Active);
        var id :| id in MappedIds(t, account, Active) && t.mirror[id].source == x;
        assert RowSame(t, u, id);
        assert id in MappedIds(u, account, Active);
      }
    }
  }

  /** After both halves no desired post is refused and no tombstone is left to collect. */
  lemma AccountSettles(initial: State, s: State, t: State, u: State, account: int, wanted: set<int>)
    requires Inv(initial) && Inv(u) && AllFree(initial, account, wanted) && Untouched(initial, s, account, wanted)
    requires Applied(s, t, account, wanted) && Retired(t, u, Obsolete(t, account, wanted)) && GoneCollected(t, u, Obsolete(t, account, wanted))
    requires Sources(u, account, Active) == wanted
    ensures Reached(u, account, wanted)
  {
    forall x | x in wanted ensures !Blocked(u, account, x) {
      WantedIsFree(initial, s, t, u, account, wanted, x);
    }
    ObsoleteLeft(t, u, account, wanted);
    forall id ensures id !in Collectable(u, account, wanted) { }
  }

  lemma ObsoleteLeft(t: State, u: State, account: int, wanted: set<int>)
    requires Retired(t, u, Obsolete(t, account, wanted)) && GoneCollected(t, u, Obsolete(t, account, wanted))
    ensures forall id | id in MappedIds(u, account, Tombstone) && u.mirror[id].source !in wanted :: HasDependency(u.posts, id)
  {
    forall id | id in MappedIds(u, account, Tombstone) && u.mirror[id].source !in wanted ensures HasDependency(u.posts, id) {
      assert id in Obsolete(t, account, wanted);
    }
  }

  lemma WantedIsFree(initial: State, s: State, t: State, u: State, account: int, wanted: set<int>, x: int)
    requires Inv(initial) && MirrorOk(u) && AllFree(initial, account, wanted) && Untouched(initial, s, account, wanted)
    requires Applied(s, t, account, wanted) && Retired(t, u, Obsolete(t, account, wanted)) && x in wanted
    ensures !Blocked(u, account, x)
  {
    assert x in Sources(t, account, Active);
    var id :| id in MappedIds(t, account, Active) && t.mirror[id].source == x;
    LiveRow(initial, s, t, account, wanted, id);
    assert RowSame(t, u, id);
    FreeRow(u, account, id);
  }

  /** The one mapping of a source settles whether it is refused. */
  lemma FreeRow(s: State, account: int, id: int)
    requires MirrorOk(s) && id in s.mirror && id in s.posts && s.mirror[id].account == account && s.mirror[id].state == Active && !s.posts[id].deleted
    ensures !Blocked(s, account, s.mirror[id].source)
  { }

  lemma LiveRow(initial: State, s: State, t: State, account: int, wanted: set<int>, id: int)
    requires Inv(initial) && AllFree(initial, account, wanted) && Untouched(initial, s, account, wanted) && Applied(s, t, account, wanted)
    requires id in MappedIds(t, account, Active) && t.mirror[id].source in wanted
    ensures id in t.posts && !t.posts[id].deleted
  {
    if id in s.mirror {
      assert RowSame(s, t, id) && RowSame(initial, s, id);
      assert !Blocked(initial, account, initial.mirror[id].source);
    }
  }

  /** The counts of an account's diff, as the sync arrives at them. */
  lemma DiffCounts(s: State, account: int, wanted: set<int>)
    requires Inv(s)
    ensures |Retirable(s, account, wanted)| == |AccountDiff(s, account, wanted).retire|
    ensures |wanted * Sources(s, account, Active)| == |AccountDiff(s, account, wanted).keep|
    ensures AllFree(s, account, wanted) ==>
      |AccountDiff(s, account, wanted).reactivate| == 0 && |AccountDiff(s, account, wanted).keep| + |AccountDiff(s, account, wanted).insert| == |wanted|
  {
    var active, tombstone := Sources(s, account, Active), Sources(s, account, Tombstone);
    RetireCount(s, account, wanted);
    SortIdsSize(active - wanted);
    SortIdsSize(wanted * active);
    if AllFree(s, account, wanted) {
      NoTombstoneWanted(s, account, wanted);
      SplitSize(wanted, active, tombstone);
      assert wanted * tombstone - active == {};
      SortIdsSize(wanted * tombstone - active);
      SortIdsSize(wanted - active - tombstone);
    }
  }

  lemma SplitSize(w: set<int>, a: set<int>, b: set<int>)
    requires w !! b
    ensures |w * a| + |w - a - b| == |w|
  { }

  lemma RetireCount(s: State, account: int, wanted: set<int>)
    requires Inv(s)
    ensures |Retirable(s, account, wanted)| == |Sources(s, account, Active) - wanted|
  {
    var ids := Retirable(s, account, wanted);
    var sources := set id | id in ids :: s.mirror[id].source;
    forall x ensures x in sources <==> x in Sources(s, account, Active) - wanted {
      if x in Sources(s, account, Active) - wanted {
        var id :| id in MappedIds(s, account, Active) && s.mirror[id].source == x;
        assert id in ids;
      }
    }
    assert sources == Sources(s, account, Active) - wanted;
    ImageSize(s, ids, sources);
  }

  lemma NoTombstoneWanted(s: State, account: int, wanted: set<int>)
    requires Inv(s) && AllFree(s, account, wanted)
    ensures wanted !! Sources(s, account, Tombstone)
  { }

  lemma {:induction false} ImageSize(s: State, ids: set<int>, sources: set<int>)
    requires MirrorOk(s) && ids <= s.mirror.Keys && sources == set id | id in ids :: s.mirror[id].source
    ensures |sources| == |ids|
    decreases |ids|
  {
    if ids != {} {
      var id := Element(ids);
      var rest := ids - {id};
      var image := set x | x in rest :: s.mirror[x].source;
      forall x ensures x in sources <==> x in image || x == s.mirror[id].source {
        if x in sources && x != s.mirror[id].source {
          var y :| y in ids && s.mirror[y].source == x;
          assert y in rest;
        }
      }
      assert sources == image + {s.mirror[id].source};
      ImageSize(s, rest, image);
    }
  }

  /** The mappings that count as retired: active ones, and tombstones nothing refers to. */
  ghost function Leaving(s: State, ids: set<int>): set<int> {
    set id | id in ids && id in s.mirror && (s.mirror[id].state == Active || !HasDependency(s.posts, id))
  }

  lemma LeavingStep(s: State, done: set<int>, id: int)
    requires id in s.mirror && id !in done
    ensures |Leaving(s, done + {id})| == |Leaving(s, done)| + if s.mirror[id].state == Active || !HasDependency(s.posts, id) then 1 else 0
  {
    assert Leaving(s, done + {id}) == Leaving(s, done) + Leaving(s, {id});
    assert Leaving(s, {id}) == if s.mirror[id].state == Active || !HasDependency(s.posts, id) then {id} else {};
  }

  /** Of these those that are kept as tombstones. */
  ghost function Staying(s: State, ids: set<int>): set<int> {
    set id | id in ids && id in s.mirror && s.mirror[id].state == Active && HasDependency(s.posts, id)
  }

  lemma StayingStep(s: State, done: set<int>, id: int)
    requires id in s.mirror && id !in done
    ensures |Staying(s, done + {id})| == |Staying(s, done)| + if s.mirror[id].state == Active && HasDependency(s.posts, id) then 1 else 0
  {
    assert Staying(s, done + {id}) == Staying(s, done) + Staying(s, {id});
    assert Staying(s, {id}) == if s.mirror[id].state == Active && HasDependency(s.posts, id) then {id} else {};
  }

  lemma StayingSplit(s: State, account: int, wanted: set<int>)
    ensures Staying(s, Obsolete(s, account, wanted)) == SoftRetirable(s, account, wanted)
  {
    forall id ensures id in Staying(s, Obsolete(s, account, wanted)) <==> id in SoftRetirable(s, account, wanted) { }
  }

  lemma LeavingSplit(s: State, account: int, wanted: set<int>)
    ensures |Leaving(s, Obsolete(s, account, wanted))| == |Retirable(s, account, wanted)| + |Collectable(s, account, wanted)|
  {
    var retire, collect := Retirable(s, account, wanted), Collectable(s, account, wanted);
    forall id ensures id in Leaving(s, Obsolete(s, account, wanted)) <==> id in retire + collect {
    }
    assert Leaving(s, Obsolete(s, account, wanted)) == retire + collect && retire !! collect;
  }

  lemma LoadedObsolete(s: State, account: int, wanted: seq<int>, loaded: map<int, Mapping>, todo: set<int>)
    requires forall id | id in loaded && loaded[id].account == account :: id in s.mirror && s.mirror[id] == loaded[id]
    requires forall id | id in Obsolete(s, account, Elems(wanted)) :: id in loaded && loaded[id] == s.mirror[id]
    requires todo == set id | id in loaded && loaded[id].account == account && loaded[id].source !in wanted
    ensures todo == Obsolete(s, account, Elems(wanted))
  {
    forall id ensures id in todo <==> id in Obsolete(s, account, Elems(wanted)) {
    }
  }

  lemma SyncStarts(s: State, account: int)
    requires Inv(s)
    ensures Retired(s, s, {}) && Applied(s, s, account, {})
  { }

  lemma MineRow(initial: State, start: State, s: State, account: int, wanted: set<int>, done: set<int>, id: int)
    requires Untouched(initial, start, account, wanted) && Applied(start, s, account, done)
    requires id in initial.mirror && initial.mirror[id].account == account
    ensures RowSame(initial, start, id) && RowSame(start, s, id)
  { }

  lemma MineBlocked(initial: State, account: int, id: int)
    requires Inv(initial) && id in initial.mirror && initial.mirror[id].account == account
    ensures Blocked(initial, account, initial.mirror[id].source) <==> initial.mirror[id].state == Tombstone || initial.posts[id].deleted
  { }

  lemma FreeSource(initial: State, start: State, s: State, account: int, wanted: set<int>, done: set<int>, x: int)
    requires Untouched(initial, start, account, wanted) && Applied(start, s, account, done)
    requires x in wanted && x !in done && forall id | id in initial.mirror :: initial.mirror[id].source != x
    ensures forall id | id in s.mirror :: s.mirror[id].source != x
    ensures !Blocked(initial, account, x) && x !in Sources(initial, account, Active)
  { }

  lemma CreateKeepsIf(s: State, users: set<int>, author: int, replyTo: Option<int>, quote: Option<int>, abort: bool)
    ensures Inv(s) ==> Inv(CreateSpec(s, users, author, replyTo, quote, abort).0) && CreateSpec(s, users, author, replyTo, quote, abort).1 != Inconsistent
  {
    if Inv(s) { CreateKeeps(s, users, author, replyTo, quote, abort); }
  }

  lemma DeleteKeepsIf(s: State, id: int, viewer: int)
    ensures Inv(s) ==> Inv(DeleteSpec(s, id, viewer).0) && DeleteSpec(s, id, viewer).1 != Inconsistent
  {
    if Inv(s) { DeleteKeeps(s, id, viewer); }
  }
}
