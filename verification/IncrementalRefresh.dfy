/** The resumable incremental refresh: a checkpoint file that moves from fetching to ready to
    synced and is then removed, beside the rolling snapshot file and the database apply.

    A run may stop at any point, by an error or by a crash; only the disk survives. Stopping is
    given by an outcome for every durable operation, so that the state a run leaves behind,
    over all outcomes, is every state in which the disk can be found. */
module IncrementalRefresh {
  import opened Basics
  import O = Ordering
  import S = Shards
  import M = SnapshotMerge

  /** The bytes of the snapshot file: what this program writes for a snapshot, or other bytes
      with what they decode to. A fingerprint is injective, so it is the content itself. */
  datatype Content = Canonical(snapshot: M.Snapshot) | Foreign(id: int, decoded: Option<M.Snapshot>)

  function Decode(c: Content): Option<M.Snapshot> {
    match c
    case Canonical(s) => Some(s)
    case Foreign(_, d) => d
  }

  datatype Stage = Fetching | Ready | Synced

  datatype Fetched = Fetched(account: M.Account, posts: seq<M.Post>, exhausted: bool)

  /** `config` stands for the source, the fetch count and the registry fingerprint. */
  datatype Checkpoint = Checkpoint(
    config: int,
    baseline: Content,
    shard: int,
    startedAt: int,
    retryNotBefore: Option<int>,
    completed: map<int, Fetched>,
    stage: Stage,
    next: Option<M.Snapshot>)

  // ---------------------------------------------------------------------------
  // Checkpoints
  // ---------------------------------------------------------------------------

  predicate Shape(cp: Checkpoint) {
    && 0 <= cp.shard < S.SHARD_COUNT
    && cp.startedAt != M.NO_TIME
    && (cp.stage.Fetching? <==> cp.next.None?)
  }

  /** The accounts of the checkpoint's shard, in key order. */
  ghost function Selected(cp: Checkpoint, r: S.Registry, hash: int -> int): seq<S.Source>
    requires S.ValidRegistry(r)
  {
    M.Subset(r, hash, cp.shard).accounts
  }

  predicate Covered(completed: map<int, Fetched>, sources: seq<S.Source>) {
    forall c :: c in sources ==> c.key in completed
  }

  function Accounts(completed: map<int, Fetched>, sources: seq<S.Source>): seq<M.Account>
    requires Covered(completed, sources)
  {
    if sources == [] then []
    else Accounts(completed, sources[..|sources| - 1]) + [completed[sources[|sources| - 1].key].account]
  }

  function Posts(completed: map<int, Fetched>, sources: seq<S.Source>): seq<M.Post>
    requires Covered(completed, sources)
  {
    if sources == [] then []
    else Posts(completed, sources[..|sources| - 1]) + completed[sources[|sources| - 1].key].posts
  }

  function Exhausted(completed: map<int, Fetched>, sources: seq<S.Source>): seq<int>
    requires Covered(completed, sources)
  {
    if sources == [] then []
    else
      var last := sources[|sources| - 1].key;
      Exhausted(completed, sources[..|sources| - 1]) + (if completed[last].exhausted then [last] else [])
  }

  predicate DistinctIds(posts: seq<M.Post>) {
    forall i, j :: 0 <= i < j < |posts| ==> posts[i].id != posts[j].id
  }

  /** Sorting; a list with a repeated id is refused in whatever order it is left. */
  function SortPosts(posts: seq<M.Post>): seq<M.Post> {
    if !DistinctIds(posts) then posts
    else
      M.PostsKeyed(Elems(posts));
      O.SortDesc(Elems(posts), M.ByPost())
  }

  function SortAccounts(accounts: seq<M.Account>): seq<M.Account> {
    if !Distinct(M.AccountKeys(accounts)) then accounts
    else
      AccountsKeyed(accounts);
      O.SortDesc(Elems(accounts), M.ByAccount())
  }

  lemma AccountsKeyed(accounts: seq<M.Account>)
    requires Distinct(M.AccountKeys(accounts))
    ensures O.Keyed(Elems(accounts), M.ByAccount())
  { }

  function Assemble(cp: Checkpoint, sources: seq<S.Source>): M.Batch
    requires Covered(cp.completed, sources)
  {
    M.Batch(cp.startedAt, cp.shard, SortAccounts(Accounts(cp.completed, sources)), SortPosts(Posts(cp.completed, sources)), Exhausted(cp.completed, sources))
  }

  /** The batch saved in a checkpoint, when it is complete and valid. */
  ghost function BatchOf(cp: Checkpoint, r: S.Registry, hash: int -> int): Option<M.Batch> {
    if !S.ValidRegistry(r) || !(0 <= cp.shard < S.SHARD_COUNT) then None
    else
      var sources := Selected(cp, r, hash);
      if !Covered(cp.completed, sources) then None
      else
        var b := Assemble(cp, sources);
        if M.ValidBatch(b, r, hash) then Some(b) else None
  }

  /** The fetched accounts put together in key order; nothing when one is missing. */
  method AssembleBatch(cp: Checkpoint, sources: seq<S.Source>) returns (result: Option<M.Batch>)
    ensures result.Some? <==> Covered(cp.completed, sources)
    ensures result.Some? ==> result.value == Assemble(cp, sources)
  {
    var accounts: seq<M.Account>, posts: seq<M.Post>, exhausted: seq<int> := [], [], [];
    for i := 0 to |sources|
      invariant Covered(cp.completed, sources[..i])
      invariant accounts == Accounts(cp.completed, sources[..i])
      invariant posts == Posts(cp.completed, sources[..i])
      invariant exhausted == Exhausted(cp.completed, sources[..i])
    {
      var key := sources[i].key;
      if key !in cp.completed {
        assert sources[i] in sources;
        return None;
      }
      assert sources[..i + 1] == sources[..i] + [sources[i]];
      assert sources[..i + 1][..i] == sources[..i];
      accounts := accounts + [cp.completed[key].account];
      posts := posts + cp.completed[key].posts;
      if cp.completed[key].exhausted {
        exhausted := exhausted + [key];
      }
    }
    assert sources[..|sources|] == sources;
    result := Some(M.Batch(cp.startedAt, cp.shard, SortAccounts(accounts), SortPosts(posts), exhausted));
  }

  method BatchFromCheckpoint(cp: Checkpoint, r: S.Registry, hash: int -> int) returns (result: Option<M.Batch>)
    ensures result == BatchOf(cp, r, hash)
  {
    var selected := S.SelectShardAccounts(r, hash, cp.shard);
    if selected.None? {
      return None;
    }
    M.SelectedSubset(r, hash, cp.shard, selected.value);
    result := AssembleBatch(cp, selected.value);
    if result.Some? {
      var valid := M.ValidateBatch(result.value, r, hash);
      if !valid {
        result := None;
      }
    }
  }

  /** A fetched account belongs to the shard and is a valid snapshot of itself. */
  ghost predicate FetchedOk(cp: Checkpoint, r: S.Registry, hash: int -> int, key: int, f: Fetched)
    requires S.ValidRegistry(r)
  {
    && f.account.key == key
    && exists c :: c in Selected(cp, r, hash) && c.key == key
         && M.ValidSnapshot(M.Snapshot(cp.startedAt, [f.account], f.posts), S.Registry(r.defaultMaxPosts, [c]))
  }

  ghost predicate CheckpointOk(cp: Checkpoint, r: S.Registry, hash: int -> int) {
    && S.ValidRegistry(r)
    && Shape(cp)
    && (forall key :: key in cp.completed ==> FetchedOk(cp, r, hash, key, cp.completed[key]))
    && (!cp.stage.Fetching? ==> BatchOf(cp, r, hash).Some? && M.ValidSnapshot(cp.next.value, r))
  }

  method FindSource(sources: seq<S.Source>, key: int) returns (c: Option<S.Source>)
    ensures c.Some? ==> c.value in sources && c.value.key == key
    ensures c.None? ==> forall d :: d in sources ==> d.key != key
  {
    for i := 0 to |sources|
      invariant forall j :: 0 <= j < i ==> sources[j].key != key
    {
      if sources[i].key == key {
        return Some(sources[i]);
      }
    }
    c := None;
  }

  /** Every fetched account is checked by itself. */
  method ValidateFetched(cp: Checkpoint, r: S.Registry, ghost hash: int -> int, sources: seq<S.Source>) returns (ok: bool)
    requires S.ValidRegistry(r) && sources == Selected(cp, r, hash)
    ensures ok <==> forall key :: key in cp.completed ==> FetchedOk(cp, r, hash, key, cp.completed[key])
  {
    var remaining := cp.completed.Keys;
    while remaining != {}
      invariant remaining <= cp.completed.Keys
      invariant forall key :: key in cp.completed && key !in remaining ==> FetchedOk(cp, r, hash, key, cp.completed[key])
      decreases remaining
    {
      var key := O.Pick(remaining);
      var one := ValidateOne(cp, r, hash, sources, key, cp.completed[key]);
      if !one {
        return false;
      }
      remaining := remaining - {key};
    }
    ok := true;
  }

  method ValidateOne(cp: Checkpoint, r: S.Registry, ghost hash: int -> int, sources: seq<S.Source>, key: int, f: Fetched) returns (ok: bool)
    requires S.ValidRegistry(r) && sources == Selected(cp, r, hash)
    ensures ok <==> FetchedOk(cp, r, hash, key, f)
  {
    var c := FindSource(sources, key);
    if c.None? || f.account.key != key {
      return false;
    }
    ok := M.ValidateSnapshot(M.Snapshot(cp.startedAt, [f.account], f.posts), S.Registry(r.defaultMaxPosts, [c.value]));
    SelectedUnique(cp, r, hash, c.value);
  }

  lemma SelectedIsShard(cp: Checkpoint, r: S.Registry, hash: int -> int)
    requires S.ValidRegistry(r)
    ensures Elems(Selected(cp, r, hash)) == S.InShard(r, hash, cp.shard)
    ensures O.Keyed(S.InShard(r, hash, cp.shard), S.ByKey())
  {
    S.SourcesKeyed(r, S.InShard(r, hash, cp.shard));
    M.SortedElems(S.InShard(r, hash, cp.shard), S.ByKey());
  }

  lemma KeyedUnique(s: set<S.Source>, c: S.Source, d: S.Source)
    requires O.Keyed(s, S.ByKey()) && c in s && d in s && c.key == d.key
    ensures c == d
  { }

  lemma SelectedUnique(cp: Checkpoint, r: S.Registry, hash: int -> int, c: S.Source)
    requires S.ValidRegistry(r) && c in Selected(cp, r, hash)
    ensures forall d :: d in Selected(cp, r, hash) && d.key == c.key ==> d == c
  {
    SelectedIsShard(cp, r, hash);
    forall d | d in Selected(cp, r, hash) && d.key == c.key ensures d == c {
      KeyedUnique(Elems(Selected(cp, r, hash)), c, d);
    }
  }

  /** The validator accepts exactly the consistent checkpoints of its configuration. */
  method ValidateCheckpoint(cp: Checkpoint, r: S.Registry, hash: int -> int, config: int) returns (ok: bool)
    ensures ok <==> CheckpointOk(cp, r, hash) && cp.config == config
  {
    if !S.ValidRegistry(r) || !Shape(cp) || cp.config != config {
      return false;
    }
    var selected := S.SelectShardAccounts(r, hash, cp.shard);
    if selected.None? {
      return false;
    }
    M.SelectedSubset(r, hash, cp.shard, selected.value);
    var fetchedOk := ValidateFetched(cp, r, hash, selected.value);
    if !fetchedOk {
      return false;
    }
    if cp.stage.Fetching? {
      return true;
    }
    var batch := BatchFromCheckpoint(cp, r, hash);
    var nextOk := M.ValidateSnapshot(cp.next.value, r);
    ok := batch.Some? && nextOk;
  }

  // ---------------------------------------------------------------------------
  // The disk and its history
  // ---------------------------------------------------------------------------

  /** What survives a crash. `applied` lists the batches the database has committed. */
  datatype Disk = Disk(file: Content, checkpoint: Option<Checkpoint>, applied: seq<M.Batch>)

  /** A finished checkpoint: its batch, the snapshot it led to, and how often the batch was
      applied before the checkpoint was removed. */
  datatype Round = Round(batch: M.Batch, next: M.Snapshot, times: nat)

  /** The finished rounds since the initial file, and how often the batch of the checkpoint
      now on disk has been applied. */
  datatype Book = Book(initial: Content, rounds: seq<Round>, pending: nat)

  function FileBefore(book: Book, i: int): Content
    requires 0 <= i <= |book.rounds|
  {
    if i == 0 then book.initial else Canonical(book.rounds[i - 1].next)
  }

  function Base(book: Book): Content {
    FileBefore(book, |book.rounds|)
  }

  function Repeat(b: M.Batch, n: nat): seq<M.Batch> {
    if n == 0 then [] else Repeat(b, n - 1) + [b]
  }

  function Flat(rounds: seq<Round>): seq<M.Batch> {
    if rounds == [] then []
    else Flat(rounds[..|rounds| - 1]) + Repeat(rounds[|rounds| - 1].batch, rounds[|rounds| - 1].times)
  }

  /** `next` is exactly the merge of the batch into what the file decodes to. */
  ghost predicate MergesTo(before: Content, b: M.Batch, next: M.Snapshot, r: S.Registry, hash: int -> int) {
    Decode(before).Some? && M.MergeResult(Decode(before).value, b, r, hash, next.fetchedAt) == Some(next)
  }

  /** Everything is fetched, and the batch merges into the baseline at no time. */
  ghost predicate StuckAt(cp: Checkpoint, r: S.Registry, hash: int -> int) {
    && S.ValidRegistry(r)
    && cp.stage.Fetching?
    && Covered(cp.completed, Selected(cp, r, hash))
    && (forall base, b, now ::
          Decode(cp.baseline) == Some(base) && BatchOf(cp, r, hash) == Some(b) ==> M.MergeResult(base, b, r, hash, now).None?)
  }

  datatype Reply = Data(fetched: Fetched) | RateLimited(retryAfter: int) | FetchFailed

  /** A durable operation is done; or the run ends without it; or it is done and the run ends
      right after, its caller seeing an error or nothing at all. */
  datatype Outcome = Done | Lost | DoneThenStopped

  /** Everything a run meets outside the disk, by the number of the request; a fetch also by
      the account asked for. The clock is never the zero time: the program replaces that by the
      present. */
  datatype Env = Env(outcome: nat -> Outcome, fetch: (nat, int) -> Reply, clock: nat -> int)

  datatype Completion = Completion(batch: M.Batch, snapshot: M.Snapshot, applied: bool)

  function Listed(result: Option<Completion>): seq<Completion> {
    if result.Some? then [result.value] else []
  }

  /** An account was fetched before, or is what the source answered in this stretch. */
  ghost predicate Origin(env: Env, before: map<int, Fetched>, key: int, f: Fetched, from: nat, upto: nat) {
    (key in before && before[key] == f) || exists k: nat :: from <= k < upto && env.fetch(k, key) == Data(f)
  }

  ghost predicate Gathered(env: Env, before: map<int, Fetched>, after: map<int, Fetched>, from: nat, upto: nat) {
    forall key :: key in after ==> Origin(env, before, key, after[key], from, upto)
  }

  /** The cooldown was set to a time read after a rate limit, plus what that asked for. */
  ghost predicate LimitedBy(env: Env, cp: Checkpoint, reply: Reply, k: nat, upto: nat) {
    reply.RateLimited? && reply.retryAfter > 0 && exists j: nat :: k < j < upto && cp.retryNotBefore == Some(env.clock(j) + reply.retryAfter)
  }

  /** A cooldown stays as long as nothing is fetched, is lifted by the next account fetched, and
      is set only by a rate limit. */
  ghost predicate Limited(env: Env, cp: Checkpoint, cp': Checkpoint, from: nat, upto: nat) {
    || (cp'.retryNotBefore == cp.retryNotBefore && cp'.completed == cp.completed)
    || (cp'.retryNotBefore.None? && cp.completed.Keys < cp'.completed.Keys)
    || exists k: nat, key :: from <= k < upto && LimitedBy(env, cp', env.fetch(k, key), k, upto)
  }

  /** Fetching stopped at an answer that does not serve the checkpoint; the cooldown of a rate
      limit is saved. */
  ghost predicate Stopped(env: Env, cp: Checkpoint, cp': Checkpoint, from: nat, upto: nat, r: S.Registry, hash: int -> int) {
    exists k: nat, key :: from <= k < upto && StoppedBy(env, cp, cp', k, key, upto, r, hash)
  }

  ghost predicate StoppedBy(env: Env, cp: Checkpoint, cp': Checkpoint, k: nat, key: int, upto: nat, r: S.Registry, hash: int -> int) {
    && Wanted(cp, r, hash, key) && !Served(cp, r, hash, key, env.fetch(k, key))
    && (env.fetch(k, key).RateLimited? && env.fetch(k, key).retryAfter > 0 ==> LimitedBy(env, cp', env.fetch(k, key), k, upto))
  }

  /** A batch is put together from accounts fetched before or answered in this stretch. */
  ghost predicate Sourced(env: Env, before: map<int, Fetched>, b: M.Batch, from: nat, upto: nat, r: S.Registry, hash: int -> int) {
    exists cp :: BatchOf(cp, r, hash) == Some(b) && Gathered(env, before, cp.completed, from, upto)
  }

  /** What is fetched and completed comes from the accounts fetched before, or from what the
      source answered in this stretch. */
  ghost predicate Brought(env: Env, before: map<int, Fetched>, cp: Option<Checkpoint>, results: seq<Completion>, from: nat, upto: nat, rules: Rules) {
    && (cp.Some? ==> rules.gathered(env, before, cp.value.completed, from, upto))
    && (forall i :: 0 <= i < |results| ==> rules.sourced(env, before, results[i].batch, from, upto))
  }

  /** The account belongs to the checkpoint's shard. */
  ghost predicate Wanted(cp: Checkpoint, r: S.Registry, hash: int -> int, key: int) {
    S.ValidRegistry(r) && exists c :: c in Selected(cp, r, hash) && c.key == key
  }

  /** What a checkpoint needs of the reply for an account: a valid snapshot of it. */
  ghost predicate Served(cp: Checkpoint, r: S.Registry, hash: int -> int, key: int, reply: Reply) {
    S.ValidRegistry(r) && reply.Data? && FetchedOk(cp, r, hash, key, reply.fetched)
  }

  ghost predicate Readable(c: Content, r: S.Registry) {
    Decode(c).Some? && M.ValidSnapshot(Decode(c).value, r)
  }

  /** What the disk's history is judged by: whether a checkpoint is consistent, whether nothing
      of it is left to fetch, whether it can go no further, the batch it holds, whether a file
      is a valid snapshot, whether an account is of a checkpoint's shard, whether a reply serves
      it, where fetched accounts, a cooldown and a batch come from, why fetching stopped, and whether a snapshot is the
      merge of a batch into a file. */
  datatype Rules = Rules(
    ok: Checkpoint -> bool,
    covered: Checkpoint -> bool,
    stuck: Checkpoint -> bool,
    batchOf: Checkpoint -> Option<M.Batch>,
    readable: Content -> bool,
    wanted: (Checkpoint, int) -> bool,
    served: (Checkpoint, int, Reply) -> bool,
    gathered: (Env, map<int, Fetched>, map<int, Fetched>, nat, nat) -> bool,
    limited: (Env, Checkpoint, Checkpoint, nat, nat) -> bool,
    stopped: (Env, Checkpoint, Checkpoint, nat, nat) -> bool,
    sourced: (Env, map<int, Fetched>, M.Batch, nat, nat) -> bool,
    merges: (Content, M.Batch, M.Snapshot) -> bool)

  ghost function RulesOf(r: S.Registry, hash: int -> int): Rules {
    Rules(
      (cp: Checkpoint) => CheckpointOk(cp, r, hash),
      (cp: Checkpoint) => S.ValidRegistry(r) && Covered(cp.completed, Selected(cp, r, hash)),
      (cp: Checkpoint) => StuckAt(cp, r, hash),
      (cp: Checkpoint) => BatchOf(cp, r, hash),
      (c: Content) => Readable(c, r),
      (cp: Checkpoint, key: int) => Wanted(cp, r, hash, key),
      (cp: Checkpoint, key: int, reply: Reply) => Served(cp, r, hash, key, reply),
      (env: Env, before: map<int, Fetched>, after: map<int, Fetched>, from: nat, upto: nat) => Gathered(env, before, after, from, upto),
      (env: Env, cp: Checkpoint, cp': Checkpoint, from: nat, upto: nat) => Limited(env, cp, cp', from, upto),
      (env: Env, cp: Checkpoint, cp': Checkpoint, from: nat, upto: nat) => Stopped(env, cp, cp', from, upto, r, hash),
      (env: Env, before: map<int, Fetched>, b: M.Batch, from: nat, upto: nat) => Sourced(env, before, b, from, upto, r, hash),
      (before: Content, b: M.Batch, next: M.Snapshot) => MergesTo(before, b, next, r, hash))
  }

  /** Names a checkpoint, a file, an account, a reply, what was fetched or a merge of which the rules are to be read out in
      full. */
  ghost predicate About(cp: Checkpoint) {
    true
  }

  ghost predicate AboutFile(c: Content) {
    true
  }

  ghost predicate AboutKey(cp: Checkpoint, key: int) {
    true
  }

  ghost predicate AboutReply(cp: Checkpoint, key: int, reply: Reply) {
    true
  }

  ghost predicate AboutGathered(before: map<int, Fetched>, after: map<int, Fetched>, from: nat, upto: nat) {
    true
  }

  ghost predicate AboutLimited(cp: Checkpoint, cp': Checkpoint, from: nat, upto: nat) {
    true
  }

  ghost predicate AboutSource(before: map<int, Fetched>, b: M.Batch, from: nat, upto: nat) {
    true
  }

  ghost predicate AboutMerge(before: Content, b: M.Batch, next: M.Snapshot) {
    true
  }

  /** The rules are those of this registry. */
  ghost predicate Govern(rules: Rules, r: S.Registry, hash: int -> int) {
    && (forall cp: Checkpoint {:trigger About(cp)} ::
          && (rules.ok(cp) <==> CheckpointOk(cp, r, hash))
          && (rules.covered(cp) <==> S.ValidRegistry(r) && Covered(cp.completed, Selected(cp, r, hash)))
          && (rules.stuck(cp) <==> StuckAt(cp, r, hash))
          && rules.batchOf(cp) == BatchOf(cp, r, hash))
    && (forall c: Content {:trigger AboutFile(c)} :: rules.readable(c) <==> Readable(c, r))
    && (forall cp: Checkpoint, key: int {:trigger AboutKey(cp, key)} :: rules.wanted(cp, key) <==> Wanted(cp, r, hash, key))
    && (forall cp: Checkpoint, key: int, reply: Reply {:trigger AboutReply(cp, key, reply)} ::
          rules.served(cp, key, reply) <==> Served(cp, r, hash, key, reply))
    && (forall env: Env, before: map<int, Fetched>, after: map<int, Fetched>, from: nat, upto: nat
          {:trigger rules.gathered(env, before, after, from, upto), AboutGathered(before, after, from, upto)} ::
          rules.gathered(env, before, after, from, upto) <==> Gathered(env, before, after, from, upto))
    && (forall env: Env, cp: Checkpoint, cp': Checkpoint, from: nat, upto: nat
          {:trigger rules.limited(env, cp, cp', from, upto), AboutLimited(cp, cp', from, upto)} ::
          rules.limited(env, cp, cp', from, upto) <==> Limited(env, cp, cp', from, upto))
    && (forall env: Env, cp: Checkpoint, cp': Checkpoint, from: nat, upto: nat
          {:trigger rules.stopped(env, cp, cp', from, upto), AboutLimited(cp, cp', from, upto)} ::
          rules.stopped(env, cp, cp', from, upto) <==> Stopped(env, cp, cp', from, upto, r, hash))
    && (forall env: Env, before: map<int, Fetched>, b: M.Batch, from: nat, upto: nat
          {:trigger rules.sourced(env, before, b, from, upto), AboutSource(before, b, from, upto)} ::
          rules.sourced(env, before, b, from, upto) <==> Sourced(env, before, b, from, upto, r, hash))
    && (forall before: Content, b: M.Batch, next: M.Snapshot {:trigger AboutMerge(before, b, next)} ::
          rules.merges(before, b, next) <==> MergesTo(before, b, next, r, hash))
  }

  lemma RulesGovern(r: S.Registry, hash: int -> int)
    ensures Govern(RulesOf(r, hash), r, hash)
  { }

  /** Every round merged its batch into the file the round before left, after applying it at
      least once. */
  ghost predicate RoundsOk(book: Book, rules: Rules) {
    forall i {:trigger RoundOk(book, i, rules)} :: 0 <= i < |book.rounds| ==> RoundOk(book, i, rules)
  }

  ghost predicate RoundOk(book: Book, i: int, rules: Rules)
    requires 0 <= i < |book.rounds|
  {
    book.rounds[i].times >= 1 && rules.merges(FileBefore(book, i), book.rounds[i].batch, book.rounds[i].next)
  }

  /** A checkpoint was made on a valid snapshot, and past fetching it carries the exact merge of
      its batch into that. */
  ghost predicate Exact(cp: Checkpoint, rules: Rules) {
    && Shape(cp)
    && rules.ok(cp)
    && rules.readable(cp.baseline)
    && (!cp.stage.Fetching? ==>
          rules.batchOf(cp).Some? && rules.merges(cp.baseline, rules.batchOf(cp).value, cp.next.value))
  }

  /** The file and the database while a checkpoint with batch `b` is on disk. */
  ghost predicate StageOk(d: Disk, book: Book, cp: Checkpoint, b: Option<M.Batch>) {
    match cp.stage
    case Fetching => d.file == cp.baseline && book.pending == 0 && d.applied == Flat(book.rounds)
    case Ready => d.file == cp.baseline && b.Some? && d.applied == Flat(book.rounds) + Repeat(b.value, book.pending)
    case Synced =>
      && (d.file == cp.baseline || (cp.next.Some? && d.file == Canonical(cp.next.value)))
      && b.Some? && d.applied == Flat(book.rounds) + Repeat(b.value, book.pending)
      && book.pending >= 1
  }

  /** Without a checkpoint the file is the last finished round's snapshot and the database
      holds the finished rounds. With one, the file is its baseline, or its merged next
      snapshot once the batch was applied; and only its own batch was applied since. */
  ghost predicate Inv(d: Disk, book: Book, rules: Rules) {
    && RoundsOk(book, rules)
    && match d.checkpoint
       case None => d.file == Base(book) && book.pending == 0 && d.applied == Flat(book.rounds)
       case Some(cp) => cp.baseline == Base(book) && Exact(cp, rules) && StageOk(d, book, cp, rules.batchOf(cp))
  }

  // ---------------------------------------------------------------------------
  // What each durable step keeps
  // ---------------------------------------------------------------------------

  lemma BeginKeeps(d: Disk, book: Book, cp: Checkpoint, rules: Rules)
    requires Inv(d, book, rules) && d.checkpoint.None?
    requires rules.ok(cp) && Shape(cp) && cp.stage.Fetching? && cp.baseline == d.file && rules.readable(cp.baseline)
    ensures Inv(d.(checkpoint := Some(cp)), book, rules)
  { }

  lemma SaveKeeps(d: Disk, book: Book, cp: Checkpoint, cp': Checkpoint, rules: Rules)
    requires Inv(d, book, rules) && d.checkpoint == Some(cp) && cp.stage.Fetching?
    requires rules.ok(cp') && Shape(cp') && cp'.stage.Fetching? && cp'.baseline == cp.baseline
    ensures Inv(d.(checkpoint := Some(cp')), book, rules)
  { }

  lemma ReadyKeeps(d: Disk, book: Book, cp: Checkpoint, cp': Checkpoint, rules: Rules)
    requires Inv(d, book, rules) && d.checkpoint == Some(cp) && cp.stage.Fetching?
    requires Exact(cp', rules) && cp'.stage.Ready? && cp'.baseline == cp.baseline
    ensures Inv(d.(checkpoint := Some(cp')), book, rules)
  { }

  lemma RepeatOnce(prefix: seq<M.Batch>, b: M.Batch, n: nat)
    ensures prefix + Repeat(b, n) + [b] == prefix + Repeat(b, n + 1)
  { }

  lemma {:induction false} FlatClose(rounds: seq<Round>, round: Round)
    ensures Flat(rounds + [round]) == Flat(rounds) + Repeat(round.batch, round.times)
  { }

  lemma ApplyKeeps(d: Disk, book: Book, cp: Checkpoint, b: M.Batch, rules: Rules)
    requires Inv(d, book, rules) && d.checkpoint == Some(cp) && cp.stage.Ready? && rules.batchOf(cp) == Some(b)
    ensures Inv(d.(applied := d.applied + [b]), book.(pending := book.pending + 1), rules)
  {
    var book' := book.(pending := book.pending + 1);
    RepeatOnce(Flat(book.rounds), b, book.pending);
    forall i | 0 <= i < |book'.rounds| ensures RoundOk(book', i, rules) {
      assert RoundOk(book, i, rules);
    }
  }

  lemma SyncedKeeps(d: Disk, book: Book, cp: Checkpoint, cp': Checkpoint, rules: Rules)
    requires Inv(d, book, rules) && d.checkpoint == Some(cp) && cp.stage.Ready? && book.pending >= 1
    requires cp' == cp.(stage := Synced) && rules.ok(cp') && rules.batchOf(cp') == rules.batchOf(cp)
    ensures Inv(d.(checkpoint := Some(cp')), book, rules)
  { }

  lemma FileKeeps(d: Disk, book: Book, cp: Checkpoint, rules: Rules)
    requires Inv(d, book, rules) && d.checkpoint == Some(cp) && cp.stage.Synced?
    ensures Inv(d.(file := Canonical(cp.next.value)), book, rules)
  { }

  /** Removing the checkpoint closes the round. */
  function Close(book: Book, b: M.Batch, next: M.Snapshot): Book {
    Book(book.initial, book.rounds + [Round(b, next, book.pending)], 0)
  }

  lemma ClosedRounds(book: Book, b: M.Batch, next: M.Snapshot)
    ensures var rounds := Close(book, b, next).rounds;
      |rounds| == |book.rounds| + 1 && book.rounds <= rounds && rounds[|book.rounds|] == Round(b, next, book.pending)
  { }

  lemma RoundsOn(a: seq<Round>, b: seq<Round>, c: seq<Round>)
    requires a <= b <= c
    ensures a <= c
  { }

  lemma RoundsClose(book: Book, b: M.Batch, next: M.Snapshot, rules: Rules)
    requires RoundsOk(book, rules) && rules.merges(Base(book), b, next) && book.pending >= 1
    ensures RoundsOk(Close(book, b, next), rules)
  {
    var book' := Close(book, b, next);
    forall i | 0 <= i < |book'.rounds| ensures RoundOk(book', i, rules) {
      assert FileBefore(book', i) == FileBefore(book, i);
      if i < |book.rounds| {
        assert RoundOk(book, i, rules) && book'.rounds[i] == book.rounds[i];
      }
    }
  }

  lemma RemoveKeeps(d: Disk, book: Book, cp: Checkpoint, b: M.Batch, rules: Rules)
    requires Inv(d, book, rules) && d.checkpoint == Some(cp) && cp.stage.Synced? && rules.batchOf(cp) == Some(b)
    requires d.file == Canonical(cp.next.value)
    ensures Inv(d.(checkpoint := None), Close(book, b, cp.next.value), rules)
  {
    RoundsClose(book, b, cp.next.value, rules);
    FlatClose(book.rounds, Round(b, cp.next.value, book.pending));
  }

  // ---------------------------------------------------------------------------
  // The rules at work
  // ---------------------------------------------------------------------------

  lemma OkMeans(cp: Checkpoint, rules: Rules, r: S.Registry, hash: int -> int)
    requires Govern(rules, r, hash)
    ensures rules.ok(cp) <==> CheckpointOk(cp, r, hash)
  {
    assert About(cp);
  }

  lemma ServedMeans(cp: Checkpoint, key: int, reply: Reply, rules: Rules, r: S.Registry, hash: int -> int)
    requires Govern(rules, r, hash)
    ensures rules.served(cp, key, reply) <==> Served(cp, r, hash, key, reply)
  {
    assert AboutReply(cp, key, reply);
  }

  lemma ReadableFile(c: Content, rules: Rules, r: S.Registry, hash: int -> int)
    requires Govern(rules, r, hash)
    ensures rules.readable(c) <==> Readable(c, r)
  {
    assert AboutFile(c);
  }

  lemma GatheredMeans(env: Env, before: map<int, Fetched>, after: map<int, Fetched>, from: nat, upto: nat, rules: Rules, r: S.Registry, hash: int -> int)
    requires Govern(rules, r, hash)
    ensures rules.gathered(env, before, after, from, upto) <==> Gathered(env, before, after, from, upto)
  {
    assert AboutGathered(before, after, from, upto);
  }

  lemma LimitedMeans(env: Env, cp: Checkpoint, cp': Checkpoint, from: nat, upto: nat, rules: Rules, r: S.Registry, hash: int -> int)
    requires Govern(rules, r, hash)
    ensures rules.limited(env, cp, cp', from, upto) <==> Limited(env, cp, cp', from, upto)
  {
    assert AboutLimited(cp, cp', from, upto);
  }

  lemma StoppedMeans(env: Env, cp: Checkpoint, cp': Checkpoint, from: nat, upto: nat, rules: Rules, r: S.Registry, hash: int -> int)
    requires Govern(rules, r, hash)
    ensures rules.stopped(env, cp, cp', from, upto) <==> Stopped(env, cp, cp', from, upto, r, hash)
  {
    assert AboutLimited(cp, cp', from, upto);
  }

  lemma WantedMeans(cp: Checkpoint, key: int, rules: Rules, r: S.Registry, hash: int -> int)
    requires Govern(rules, r, hash)
    ensures rules.wanted(cp, key) <==> Wanted(cp, r, hash, key)
  {
    assert AboutKey(cp, key);
  }

  /** One answer that does not serve the checkpoint. */
  lemma StoppedAt(env: Env, cp: Checkpoint, cp': Checkpoint, key: int, k: nat, upto: nat, rules: Rules, r: S.Registry, hash: int -> int)
    requires Govern(rules, r, hash) && k < upto && rules.wanted(cp, key) && !rules.served(cp, key, env.fetch(k, key))
    requires env.fetch(k, key).RateLimited? && env.fetch(k, key).retryAfter > 0 ==>
      k + 1 < upto && cp'.retryNotBefore == Some(env.clock(k + 1) + env.fetch(k, key).retryAfter)
    ensures rules.stopped(env, cp, cp', k, upto)
  {
    StoppedMeans(env, cp, cp', k, upto, rules, r, hash);
    WantedMeans(cp, key, rules, r, hash);
    ServedMeans(cp, key, env.fetch(k, key), rules, r, hash);
    assert StoppedBy(env, cp, cp', k, key, upto, r, hash);
  }

  lemma StoppedWidens(env: Env, cp: Checkpoint, cp': Checkpoint, from': nat, from: nat, upto: nat, rules: Rules, r: S.Registry, hash: int -> int)
    requires Govern(rules, r, hash) && from' <= from && rules.stopped(env, cp, cp', from, upto)
    ensures rules.stopped(env, cp, cp', from', upto)
  {
    StoppedMeans(env, cp, cp', from, upto, rules, r, hash);
    StoppedMeans(env, cp, cp', from', upto, rules, r, hash);
  }

  lemma StoppedIsUnserved(env: Env, cp: Checkpoint, cp': Checkpoint, from: nat, upto: nat, rules: Rules, r: S.Registry, hash: int -> int)
    requires Govern(rules, r, hash) && rules.stopped(env, cp, cp', from, upto)
    ensures Unserved(env, cp, rules, from, upto)
  {
    StoppedMeans(env, cp, cp', from, upto, rules, r, hash);
    var k: nat, key :| from <= k < upto && StoppedBy(env, cp, cp', k, key, upto, r, hash);
    WantedMeans(cp, key, rules, r, hash);
    ServedMeans(cp, key, env.fetch(k, key), rules, r, hash);
  }

  lemma SourcedMeans(env: Env, before: map<int, Fetched>, b: M.Batch, from: nat, upto: nat, rules: Rules, r: S.Registry, hash: int -> int)
    requires Govern(rules, r, hash)
    ensures rules.sourced(env, before, b, from, upto) <==> Sourced(env, before, b, from, upto, r, hash)
  {
    assert AboutSource(before, b, from, upto);
  }

  lemma GatheredSelf(env: Env, before: map<int, Fetched>, from: nat, upto: nat, rules: Rules, r: S.Registry, hash: int -> int)
    requires Govern(rules, r, hash)
    ensures rules.gathered(env, before, before, from, upto)
  {
    GatheredMeans(env, before, before, from, upto, rules, r, hash);
  }

  lemma NothingGathered(env: Env, cp: Checkpoint, from: nat, upto: nat, rules: Rules, r: S.Registry, hash: int -> int)
    requires Govern(rules, r, hash)
    ensures rules.gathered(env, cp.completed, cp.completed, from, upto) && rules.limited(env, cp, cp, from, upto)
  {
    GatheredMeans(env, cp.completed, cp.completed, from, upto, rules, r, hash);
    LimitedMeans(env, cp, cp, from, upto, rules, r, hash);
  }

  lemma OneGathered(env: Env, cp: Checkpoint, cp': Checkpoint, key: int, f: Fetched, k: nat, upto: nat, rules: Rules, r: S.Registry, hash: int -> int)
    requires Govern(rules, r, hash) && k < upto && env.fetch(k, key) == Data(f) && key !in cp.completed
    requires cp' == cp.(completed := cp.completed[key := f], retryNotBefore := None)
    ensures rules.gathered(env, cp.completed, cp'.completed, k, upto) && rules.limited(env, cp, cp', k, upto)
  {
    GatheredMeans(env, cp.completed, cp'.completed, k, upto, rules, r, hash);
    LimitedMeans(env, cp, cp', k, upto, rules, r, hash);
    assert key in cp'.completed.Keys;
  }

  lemma LimitGathered(env: Env, cp: Checkpoint, cp': Checkpoint, key: int, k: nat, upto: nat, rules: Rules, r: S.Registry, hash: int -> int)
    requires Govern(rules, r, hash) && k < upto && cp'.completed == cp.completed
    requires cp' == cp || (env.fetch(k, key).RateLimited? && env.fetch(k, key).retryAfter > 0
      && k + 1 < upto && cp'.retryNotBefore == Some(env.clock(k + 1) + env.fetch(k, key).retryAfter))
    ensures rules.gathered(env, cp.completed, cp'.completed, k, upto) && rules.limited(env, cp, cp', k, upto)
  {
    GatheredMeans(env, cp.completed, cp'.completed, k, upto, rules, r, hash);
    LimitedMeans(env, cp, cp', k, upto, rules, r, hash);
    assert cp' == cp || LimitedBy(env, cp', env.fetch(k, key), k, upto);
  }

  lemma LimitFacts(env: Env, cp: Checkpoint, cp': Checkpoint, origin: Checkpoint, key: int, retryAfter: int, k: nat, upto: nat, rules: Rules, r: S.Registry, hash: int -> int)
    requires Govern(rules, r, hash) && k < upto && cp' == cp.(retryNotBefore := cp'.retryNotBefore)
    requires env.fetch(k, key) == RateLimited(retryAfter) && rules.wanted(origin, key) && !rules.served(origin, key, env.fetch(k, key))
    requires cp' == cp || (retryAfter > 0 && k + 1 < upto && cp'.retryNotBefore == Some(env.clock(k + 1) + retryAfter))
    ensures rules.gathered(env, cp.completed, cp'.completed, k, upto) && rules.limited(env, cp, cp', k, upto)
    ensures retryAfter <= 0 || (k + 1 < upto && cp'.retryNotBefore == Some(env.clock(k + 1) + retryAfter)) ==> rules.stopped(env, origin, cp', k, upto)
  {
    LimitGathered(env, cp, cp', key, k, upto, rules, r, hash);
    if retryAfter <= 0 || (k + 1 < upto && cp'.retryNotBefore == Some(env.clock(k + 1) + retryAfter)) {
      StoppedAt(env, origin, cp', key, k, upto, rules, r, hash);
    }
  }

  lemma OriginOn(env: Env, a: map<int, Fetched>, b: map<int, Fetched>, key: int, f: Fetched, from: nat, mid: nat, upto: nat)
    requires from <= mid <= upto && Gathered(env, a, b, from, mid) && Origin(env, b, key, f, mid, upto)
    ensures Origin(env, a, key, f, from, upto)
  {
    if key in b && b[key] == f {
      assert Origin(env, a, key, b[key], from, mid);
    }
  }

  lemma GatheredOn(env: Env, a: map<int, Fetched>, b: map<int, Fetched>, c: map<int, Fetched>, from: nat, mid: nat, upto: nat, rules: Rules, r: S.Registry, hash: int -> int)
    requires Govern(rules, r, hash) && from <= mid <= upto
    requires rules.gathered(env, a, b, from, mid) && rules.gathered(env, b, c, mid, upto)
    ensures rules.gathered(env, a, c, from, upto)
  {
    GatheredMeans(env, a, b, from, mid, rules, r, hash);
    GatheredMeans(env, b, c, mid, upto, rules, r, hash);
    forall key | key in c ensures Origin(env, a, key, c[key], from, upto) {
      assert Origin(env, b, key, c[key], mid, upto);
      OriginOn(env, a, b, key, c[key], from, mid, upto);
    }
    GatheredMeans(env, a, c, from, upto, rules, r, hash);
  }

  lemma LimitedOn(env: Env, a: Checkpoint, b: Checkpoint, c: Checkpoint, from: nat, mid: nat, upto: nat, rules: Rules, r: S.Registry, hash: int -> int)
    requires Govern(rules, r, hash) && from <= mid <= upto
    requires a.completed.Keys <= b.completed.Keys <= c.completed.Keys
    requires rules.limited(env, a, b, from, mid) && rules.limited(env, b, c, mid, upto)
    ensures rules.limited(env, a, c, from, upto)
  {
    LimitedMeans(env, a, b, from, mid, rules, r, hash);
    LimitedMeans(env, b, c, mid, upto, rules, r, hash);
    LimitedMeans(env, a, c, from, upto, rules, r, hash);
    if exists k: nat, key :: mid <= k < upto && LimitedBy(env, c, env.fetch(k, key), k, upto) {
    } else if c.retryNotBefore == b.retryNotBefore && c.completed == b.completed {
      if exists k: nat, key :: from <= k < mid && LimitedBy(env, b, env.fetch(k, key), k, mid) {
        var k: nat, key :| from <= k < mid && LimitedBy(env, b, env.fetch(k, key), k, mid);
        assert LimitedBy(env, c, env.fetch(k, key), k, upto);
      }
    }
  }

  /** A longer stretch, or a wider start, changes nothing. */
  lemma GatheredWidens(env: Env, a: map<int, Fetched>, b: map<int, Fetched>, from': nat, from: nat, upto: nat, upto': nat, rules: Rules, r: S.Registry, hash: int -> int)
    requires Govern(rules, r, hash) && from' <= from <= upto <= upto' && rules.gathered(env, a, b, from, upto)
    ensures rules.gathered(env, a, b, from', upto')
    ensures a == map[] ==> forall before :: rules.gathered(env, before, b, from', upto')
  {
    GatheredMeans(env, a, b, from, upto, rules, r, hash);
    forall before: map<int, Fetched> | before == a || a == map[] ensures rules.gathered(env, before, b, from', upto') {
      forall key | key in b ensures Origin(env, before, key, b[key], from', upto') {
        assert Origin(env, a, key, b[key], from, upto);
      }
      GatheredMeans(env, before, b, from', upto', rules, r, hash);
    }
  }

  lemma SourcedFrom(env: Env, before: map<int, Fetched>, cp: Checkpoint, b: M.Batch, from: nat, upto: nat, rules: Rules, r: S.Registry, hash: int -> int)
    requires Govern(rules, r, hash) && rules.batchOf(cp) == Some(b) && rules.gathered(env, before, cp.completed, from, upto)
    ensures rules.sourced(env, before, b, from, upto)
  {
    GatheredMeans(env, before, cp.completed, from, upto, rules, r, hash);
    SourcedMeans(env, before, b, from, upto, rules, r, hash);
    assert About(cp);
    assert BatchOf(cp, r, hash) == Some(b);
  }

  lemma SourcedWidens(env: Env, before: map<int, Fetched>, b: M.Batch, from': nat, from: nat, upto: nat, upto': nat, rules: Rules, r: S.Registry, hash: int -> int)
    requires Govern(rules, r, hash) && from' <= from <= upto <= upto' && rules.sourced(env, before, b, from, upto)
    ensures rules.sourced(env, before, b, from', upto')
    ensures before == map[] ==> forall any :: rules.sourced(env, any, b, from', upto')
  {
    SourcedMeans(env, before, b, from, upto, rules, r, hash);
    var cp :| BatchOf(cp, r, hash) == Some(b) && Gathered(env, before, cp.completed, from, upto);
    GatheredMeans(env, before, cp.completed, from, upto, rules, r, hash);
    GatheredWidens(env, before, cp.completed, from', from, upto, upto', rules, r, hash);
    assert About(cp);
    forall any: map<int, Fetched> | any == before || before == map[] ensures rules.sourced(env, any, b, from', upto') {
      SourcedFrom(env, any, cp, b, from', upto', rules, r, hash);
    }
  }

  /** A checkpoint carried to its end, or as far as it came. */
  lemma BroughtBy(env: Env, before: map<int, Fetched>, cp: Option<Checkpoint>, result: Option<Completion>, from: nat, mid: nat, upto: nat, rules: Rules, r: S.Registry, hash: int -> int)
    requires Govern(rules, r, hash) && from <= mid <= upto
    requires cp.Some? ==> rules.gathered(env, before, cp.value.completed, from, mid)
    requires result.Some? ==> rules.sourced(env, before, result.value.batch, from, mid)
    ensures Brought(env, before, cp, Listed(result), from, upto, rules)
  {
    if cp.Some? {
      GatheredWidens(env, before, cp.value.completed, from, from, mid, upto, rules, r, hash);
    }
    if result.Some? {
      SourcedWidens(env, before, result.value.batch, from, from, mid, upto, rules, r, hash);
    }
  }

  /** What a part of a run brings, after what was completed before it, is brought by the run. */
  lemma BroughtOn(env: Env, before: map<int, Fetched>, results: seq<Completion>, was: Option<Checkpoint>, now: map<int, Fetched>, cp: Option<Checkpoint>, result: Option<Completion>, after: seq<Completion>, from: nat, mid: nat, upto: nat, rules: Rules, r: S.Registry, hash: int -> int)
    requires Govern(rules, r, hash) && from <= mid <= upto && (now == before || now == map[])
    requires Brought(env, before, was, results, from, mid, rules) && Brought(env, now, cp, Listed(result), mid, upto, rules)
    requires after == if result.Some? then results + [result.value] else results
    ensures Brought(env, before, cp, after, from, upto, rules)
  {
    if cp.Some? {
      GatheredWidens(env, now, cp.value.completed, from, mid, upto, upto, rules, r, hash);
    }
    forall i | 0 <= i < |after| ensures rules.sourced(env, before, after[i].batch, from, upto) {
      if i < |results| {
        SourcedWidens(env, before, results[i].batch, from, from, mid, upto, rules, r, hash);
      } else {
        assert after[i] == Listed(result)[0];
        SourcedWidens(env, now, after[i].batch, from, mid, upto, upto, rules, r, hash);
      }
    }
  }

  lemma BroughtLonger(env: Env, before: map<int, Fetched>, cp: Option<Checkpoint>, results: seq<Completion>, from: nat, mid: nat, upto: nat, rules: Rules, r: S.Registry, hash: int -> int)
    requires Govern(rules, r, hash) && from <= mid <= upto && Brought(env, before, cp, results, mid, upto, rules)
    ensures Brought(env, before, cp, results, from, upto, rules)
  {
    if cp.Some? {
      GatheredWidens(env, before, cp.value.completed, from, mid, upto, upto, rules, r, hash);
    }
    forall i | 0 <= i < |results| ensures rules.sourced(env, before, results[i].batch, from, upto) {
      SourcedWidens(env, before, results[i].batch, from, mid, upto, upto, rules, r, hash);
    }
  }

  /** Before anything is done nothing but the checkpoint itself is there. */
  lemma BroughtNothing(env: Env, cp: Option<Checkpoint>, from: nat, upto: nat, rules: Rules, r: S.Registry, hash: int -> int)
    requires Govern(rules, r, hash)
    ensures Brought(env, CompletedOf(cp), cp, [], from, upto, rules)
  {
    GatheredSelf(env, CompletedOf(cp), from, upto, rules, r, hash);
  }

  lemma Selectable(cp: Checkpoint, rules: Rules, r: S.Registry, hash: int -> int)
    requires Govern(rules, r, hash) && rules.ok(cp)
    ensures S.ValidRegistry(r) && 0 <= cp.shard < S.SHARD_COUNT
  {
    assert About(cp);
  }

  lemma NewCheckpointOk(cp: Checkpoint, rules: Rules, r: S.Registry, hash: int -> int)
    requires Govern(rules, r, hash) && S.ValidRegistry(r) && Shape(cp) && cp.stage.Fetching? && cp.completed == map[]
    ensures rules.ok(cp)
  {
    assert About(cp);
  }

  /** Merging again at the time the result carries gives the same result. */
  lemma MergeAgainAtItsTime(base: M.Snapshot, b: M.Batch, r: S.Registry, hash: int -> int, now: int)
    requires M.MergeResult(base, b, r, hash, now).Some?
    ensures var next := M.MergeResult(base, b, r, hash, now).value;
      M.MergeResult(base, b, r, hash, next.fetchedAt) == Some(next) && M.ValidSnapshot(next, r)
  {
    assert M.Merged(base, b, r, hash, now).fetchedAt != M.NO_TIME;
    assert M.Merged(base, b, r, hash, M.Merged(base, b, r, hash, now).fetchedAt) == M.Merged(base, b, r, hash, now);
  }

  /** The batch of a checkpoint does not depend on its stage. */
  lemma StageIrrelevant(cp: Checkpoint, cp': Checkpoint, r: S.Registry, hash: int -> int)
    requires cp'.shard == cp.shard && cp'.startedAt == cp.startedAt && cp'.completed == cp.completed
    ensures BatchOf(cp', r, hash) == BatchOf(cp, r, hash)
  { }

  lemma FetchedIrrelevant(cp: Checkpoint, cp': Checkpoint, r: S.Registry, hash: int -> int)
    requires S.ValidRegistry(r) && cp'.shard == cp.shard && cp'.startedAt == cp.startedAt && cp'.completed == cp.completed
    requires forall key :: key in cp.completed ==> FetchedOk(cp, r, hash, key, cp.completed[key])
    ensures forall key :: key in cp'.completed ==> FetchedOk(cp', r, hash, key, cp'.completed[key])
  { }

  lemma CooldownOk(cp: Checkpoint, cp': Checkpoint, rules: Rules, r: S.Registry, hash: int -> int)
    requires Govern(rules, r, hash) && rules.ok(cp) && cp.stage.Fetching? && cp' == cp.(retryNotBefore := cp'.retryNotBefore)
    ensures rules.ok(cp') && Shape(cp')
  {
    OkMeans(cp, rules, r, hash);
    OkMeans(cp', rules, r, hash);
    FetchedIrrelevant(cp, cp', r, hash);
  }

  lemma ReadyCheckpointOk(cp: Checkpoint, cp': Checkpoint, base: M.Snapshot, b: M.Batch, next: M.Snapshot, now: int, r: S.Registry, hash: int -> int)
    requires CheckpointOk(cp, r, hash) && cp.stage.Fetching? && BatchOf(cp, r, hash) == Some(b)
    requires Decode(cp.baseline) == Some(base) && M.MergeResult(base, b, r, hash, now) == Some(next)
    requires cp' == cp.(stage := Ready, next := Some(next))
    ensures CheckpointOk(cp', r, hash) && BatchOf(cp', r, hash) == Some(b) && MergesTo(cp'.baseline, b, next, r, hash)
  {
    StageIrrelevant(cp, cp', r, hash);
    FetchedIrrelevant(cp, cp', r, hash);
    MergeAgainAtItsTime(base, b, r, hash, now);
  }

  lemma ReadyOk(cp: Checkpoint, cp': Checkpoint, base: M.Snapshot, b: M.Batch, next: M.Snapshot, now: int, rules: Rules, r: S.Registry, hash: int -> int)
    requires Govern(rules, r, hash) && rules.ok(cp) && rules.readable(cp.baseline) && cp.stage.Fetching? && BatchOf(cp, r, hash) == Some(b)
    requires Decode(cp.baseline) == Some(base) && M.MergeResult(base, b, r, hash, now) == Some(next)
    requires cp' == cp.(stage := Ready, next := Some(next))
    ensures Exact(cp', rules)
  {
    assert About(cp) && About(cp') && AboutMerge(cp'.baseline, b, next);
    ReadyCheckpointOk(cp, cp', base, b, next, now, r, hash);
  }

  lemma SyncedCheckpointOk(cp: Checkpoint, cp': Checkpoint, r: S.Registry, hash: int -> int)
    requires CheckpointOk(cp, r, hash) && cp.stage.Ready? && cp' == cp.(stage := Synced)
    requires BatchOf(cp', r, hash) == BatchOf(cp, r, hash)
    ensures CheckpointOk(cp', r, hash)
  {
    FetchedIrrelevant(cp, cp', r, hash);
  }

  lemma SyncedOk(cp: Checkpoint, cp': Checkpoint, rules: Rules, r: S.Registry, hash: int -> int)
    requires Govern(rules, r, hash) && rules.ok(cp) && cp.stage.Ready? && cp' == cp.(stage := Synced)
    ensures rules.ok(cp') && rules.batchOf(cp') == rules.batchOf(cp)
  {
    assert About(cp) && About(cp');
    StageIrrelevant(cp, cp', r, hash);
    SyncedCheckpointOk(cp, cp', r, hash);
  }

  /** The batch saved with an exact checkpoint, and the merge it stands for. */
  lemma SavedBatchFacts(cp: Checkpoint, rules: Rules, r: S.Registry, hash: int -> int)
    requires Govern(rules, r, hash) && Exact(cp, rules) && !cp.stage.Fetching?
    ensures BatchOf(cp, r, hash) == rules.batchOf(cp)
    ensures MergesTo(cp.baseline, rules.batchOf(cp).value, cp.next.value, r, hash)
    ensures rules.batchOf(cp).value.shard == cp.shard && rules.batchOf(cp).value.fetchedAt == cp.startedAt
    ensures M.ValidSnapshot(cp.next.value, r) && Decode(cp.baseline).Some? && M.ValidSnapshot(Decode(cp.baseline).value, r)
  {
    assert About(cp) && AboutMerge(cp.baseline, rules.batchOf(cp).value, cp.next.value);
  }

  // ---------------------------------------------------------------------------
  // What the invariant says
  // ---------------------------------------------------------------------------

  lemma {:induction false} RepeatElems(b: M.Batch, n: nat)
    ensures |Repeat(b, n)| == n
    ensures forall j :: 0 <= j < n ==> Repeat(b, n)[j] == b
  {
    if n > 0 {
      RepeatElems(b, n - 1);
    }
  }

  lemma {:induction false} FlatElems(rounds: seq<Round>, i: int)
    requires 0 <= i < |rounds| && rounds[i].times >= 1
    ensures rounds[i].batch in Flat(rounds)
  {
    var n := |rounds| - 1;
    if i == n {
      RepeatElems(rounds[n].batch, rounds[n].times);
      assert Repeat(rounds[n].batch, rounds[n].times)[0] in Flat(rounds);
    } else {
      FlatElems(rounds[..n], i);
      assert rounds[..n][i].batch in Flat(rounds);
    }
  }

  /** While a checkpoint is on disk: the file is its baseline or its exact merged next
      snapshot, the latter only after its batch was applied; and whatever was applied since
      the last finished round is that same batch. */
  lemma CheckpointSafety(d: Disk, book: Book, cp: Checkpoint, rules: Rules, r: S.Registry, hash: int -> int)
    requires Inv(d, book, rules) && Govern(rules, r, hash) && d.checkpoint == Some(cp)
    ensures d.file != cp.baseline ==>
      && cp.stage.Synced? && d.file == Canonical(cp.next.value)
      && BatchOf(cp, r, hash).Some?
      && Decode(cp.baseline).Some?
      && M.MergeResult(Decode(cp.baseline).value, BatchOf(cp, r, hash).value, r, hash, cp.next.value.fetchedAt) == cp.next
      && BatchOf(cp, r, hash).value in d.applied[|Flat(book.rounds)|..]
    ensures |Flat(book.rounds)| <= |d.applied| && d.applied[..|Flat(book.rounds)|] == Flat(book.rounds)
    ensures forall b :: b in d.applied[|Flat(book.rounds)|..] ==> BatchOf(cp, r, hash) == Some(b)
  {
    if !cp.stage.Fetching? {
      SavedBatchFacts(cp, rules, r, hash);
      var b := rules.batchOf(cp).value;
      RepeatElems(b, book.pending);
      assert d.applied[|Flat(book.rounds)|..] == Repeat(b, book.pending);
      if cp.stage.Synced? {
        assert Repeat(b, book.pending)[0] == b;
      }
    }
  }

  lemma RoundApplied(d: Disk, book: Book, i: int, rules: Rules)
    requires Inv(d, book, rules) && 0 <= i < |book.rounds|
    ensures book.rounds[i].batch in d.applied
  {
    assert RoundOk(book, i, rules);
    FlatElems(book.rounds, i);
    assert Flat(book.rounds) <= d.applied;
  }

  lemma RoundMerges(book: Book, i: int, rules: Rules, r: S.Registry, hash: int -> int)
    requires RoundsOk(book, rules) && Govern(rules, r, hash) && 0 <= i < |book.rounds|
    ensures MergesTo(FileBefore(book, i), book.rounds[i].batch, book.rounds[i].next, r, hash)
  {
    assert RoundOk(book, i, rules) && AboutMerge(FileBefore(book, i), book.rounds[i].batch, book.rounds[i].next);
  }

  /** Every finished round applied its batch and moved the file to exactly the merge of that
      batch into the file the round before had left; without a checkpoint the present file is
      the last of them. */
  lemma FileHistory(d: Disk, book: Book, i: int, rules: Rules, r: S.Registry, hash: int -> int)
    requires Inv(d, book, rules) && Govern(rules, r, hash) && 0 <= i < |book.rounds|
    ensures MergesTo(FileBefore(book, i), book.rounds[i].batch, book.rounds[i].next, r, hash)
    ensures FileBefore(book, i + 1) == Canonical(book.rounds[i].next)
    ensures book.rounds[i].batch in d.applied
    ensures d.checkpoint.None? ==> d.file == FileBefore(book, |book.rounds|)
  {
    RoundMerges(book, i, rules, r, hash);
    RoundApplied(d, book, i, rules);
  }

  // ---------------------------------------------------------------------------
  // What a batch holds, and where it comes from
  // ---------------------------------------------------------------------------

  lemma SortedPostsSame(posts: seq<M.Post>)
    ensures Elems(SortPosts(posts)) == Elems(posts)
  {
    if DistinctIds(posts) {
      M.PostsKeyed(Elems(posts));
      O.SortDescSpec(Elems(posts), M.ByPost());
    }
  }

  lemma SortedAccountsSame(accounts: seq<M.Account>)
    ensures Elems(SortAccounts(accounts)) == Elems(accounts)
  {
    if Distinct(M.AccountKeys(accounts)) {
      AccountsKeyed(accounts);
      O.SortDescSpec(Elems(accounts), M.ByAccount());
    }
  }

  lemma InFrontOrLast(sources: seq<S.Source>, c: S.Source)
    requires sources != []
    ensures c in sources <==> c in sources[..|sources| - 1] || c == sources[|sources| - 1]
  {
    var n := |sources| - 1;
    if c in sources {
      var i :| 0 <= i < |sources| && sources[i] == c;
      assert i < n ==> sources[..n][i] == c;
    }
  }

  lemma {:induction false} PostsOf(completed: map<int, Fetched>, sources: seq<S.Source>, p: M.Post)
    requires Covered(completed, sources)
    ensures p in Posts(completed, sources) <==> exists c :: c in sources && p in completed[c.key].posts
  {
    if sources != [] {
      var n := |sources| - 1;
      PostsOf(completed, sources[..n], p);
      forall c ensures c in sources <==> c in sources[..n] || c == sources[n] {
        InFrontOrLast(sources, c);
      }
      assert p in Posts(completed, sources) <==> p in Posts(completed, sources[..n]) || p in completed[sources[n].key].posts;
    }
  }

  lemma {:induction false} AccountsOf(completed: map<int, Fetched>, sources: seq<S.Source>, a: M.Account)
    requires Covered(completed, sources)
    ensures a in Accounts(completed, sources) <==> exists c :: c in sources && a == completed[c.key].account
  {
    if sources != [] {
      var n := |sources| - 1;
      AccountsOf(completed, sources[..n], a);
      forall c ensures c in sources <==> c in sources[..n] || c == sources[n] {
        InFrontOrLast(sources, c);
      }
      assert a in Accounts(completed, sources) <==> a in Accounts(completed, sources[..n]) || a == completed[sources[n].key].account;
    }
  }

  lemma {:induction false} ExhaustedOf(completed: map<int, Fetched>, sources: seq<S.Source>, key: int)
    requires Covered(completed, sources)
    ensures key in Exhausted(completed, sources) <==> exists c :: c in sources && c.key == key && completed[key].exhausted
  {
    if sources != [] {
      var n := |sources| - 1;
      ExhaustedOf(completed, sources[..n], key);
      forall c ensures c in sources <==> c in sources[..n] || c == sources[n] {
        InFrontOrLast(sources, c);
      }
      assert key in Exhausted(completed, sources) <==> key in Exhausted(completed, sources[..n]) || (key == sources[n].key && completed[key].exhausted);
    }
  }

  /** The batch of a checkpoint holds exactly what was fetched for the accounts of its shard. */
  lemma BatchHolds(cp: Checkpoint, b: M.Batch, r: S.Registry, hash: int -> int)
    requires BatchOf(cp, r, hash) == Some(b)
    ensures S.ValidRegistry(r) && Covered(cp.completed, Selected(cp, r, hash))
    ensures b.fetchedAt == cp.startedAt && b.shard == cp.shard
    ensures forall a :: a in b.accounts <==> exists c :: c in Selected(cp, r, hash) && a == cp.completed[c.key].account
    ensures forall p :: p in b.posts <==> exists c :: c in Selected(cp, r, hash) && p in cp.completed[c.key].posts
    ensures forall key :: key in b.exhausted <==> exists c :: c in Selected(cp, r, hash) && c.key == key && cp.completed[key].exhausted
  {
    var sources := Selected(cp, r, hash);
    SortedAccountsSame(Accounts(cp.completed, sources));
    SortedPostsSame(Posts(cp.completed, sources));
    forall a ensures a in b.accounts <==> exists c :: c in sources && a == cp.completed[c.key].account {
      AccountsOf(cp.completed, sources, a);
      assert a in b.accounts <==> a in Elems(b.accounts);
      assert a in Accounts(cp.completed, sources) <==> a in Elems(Accounts(cp.completed, sources));
    }
    forall p ensures p in b.posts <==> exists c :: c in sources && p in cp.completed[c.key].posts {
      PostsOf(cp.completed, sources, p);
      assert p in b.posts <==> p in Elems(b.posts);
      assert p in Posts(cp.completed, sources) <==> p in Elems(Posts(cp.completed, sources));
    }
    forall key ensures key in b.exhausted <==> exists c :: c in sources && c.key == key && cp.completed[key].exhausted {
      ExhaustedOf(cp.completed, sources, key);
    }
  }

  /** A batch brings exactly this of one account. */
  ghost predicate Brings(b: M.Batch, key: int, f: Fetched) {
    && f.account in b.accounts
    && (forall p :: p in f.posts ==> p in b.posts)
    && (f.exhausted <==> key in b.exhausted)
  }

  /** Whatever a run completes: for every account of the shard all that was fetched for it,
      either before or by this run as the source answered it, and nothing else. */
  lemma RunBrings(env: Env, before: map<int, Fetched>, cp: Option<Checkpoint>, results: seq<Completion>, i: nat, from: nat, upto: nat, rules: Rules, r: S.Registry, hash: int -> int)
    requires Govern(rules, r, hash) && Brought(env, before, cp, results, from, upto, rules) && i < |results|
    ensures var b := results[i].batch;
      && S.ValidRegistry(r)
      && (forall key :: key in S.Members(S.EnabledKeys(r), hash, b.shard) ==>
            exists f :: Origin(env, before, key, f, from, upto) && Brings(b, key, f))
      && (forall p :: p in b.posts ==> exists key, f :: Origin(env, before, key, f, from, upto) && p in f.posts)
      && (forall a :: a in b.accounts ==> exists key, f :: Origin(env, before, key, f, from, upto) && a == f.account)
  {
    SourcedMeans(env, before, results[i].batch, from, upto, rules, r, hash);
    SourceBrings(env, before, results[i].batch, from, upto, r, hash);
  }

  lemma SourceBrings(env: Env, before: map<int, Fetched>, b: M.Batch, from: nat, upto: nat, r: S.Registry, hash: int -> int)
    requires Sourced(env, before, b, from, upto, r, hash)
    ensures S.ValidRegistry(r)
    ensures forall key :: key in S.Members(S.EnabledKeys(r), hash, b.shard) ==>
      exists f :: Origin(env, before, key, f, from, upto) && Brings(b, key, f)
    ensures forall p :: p in b.posts ==> exists key, f :: Origin(env, before, key, f, from, upto) && p in f.posts
    ensures forall a :: a in b.accounts ==> exists key, f :: Origin(env, before, key, f, from, upto) && a == f.account
  {
    var cp :| BatchOf(cp, r, hash) == Some(b) && Gathered(env, before, cp.completed, from, upto);
    BatchHolds(cp, b, r, hash);
    forall key | key in S.Members(S.EnabledKeys(r), hash, b.shard) ensures exists f :: Origin(env, before, key, f, from, upto) && Brings(b, key, f) {
      MemberSelected(cp, r, hash, key);
      var c :| c in Selected(cp, r, hash) && c.key == key;
      assert Origin(env, before, key, cp.completed[key], from, upto) && Brings(b, key, cp.completed[key]);
    }
    forall p | p in b.posts ensures exists key, f :: Origin(env, before, key, f, from, upto) && p in f.posts {
      var c :| c in Selected(cp, r, hash) && p in cp.completed[c.key].posts;
      assert Origin(env, before, c.key, cp.completed[c.key], from, upto);
    }
    forall a | a in b.accounts ensures exists key, f :: Origin(env, before, key, f, from, upto) && a == f.account {
      var c :| c in Selected(cp, r, hash) && a == cp.completed[c.key].account;
      assert Origin(env, before, c.key, cp.completed[c.key], from, upto);
    }
  }

  lemma MemberSelected(cp: Checkpoint, r: S.Registry, hash: int -> int, key: int)
    requires S.ValidRegistry(r) && key in S.Members(S.EnabledKeys(r), hash, cp.shard)
    ensures exists c :: c in Selected(cp, r, hash) && c.key == key
  {
    SelectedIsShard(cp, r, hash);
    var c :| c in S.Enabled(r) && c.key == key;
    assert c in S.InShard(r, hash, cp.shard);
    assert c in Elems(Selected(cp, r, hash));
  }

  /** Fetching adds fetched accounts and moves the cooldown, and touches nothing else. */
  ghost predicate FetchedMore(cp: Checkpoint, cp': Checkpoint) {
    && cp' == cp.(completed := cp'.completed, retryNotBefore := cp'.retryNotBefore)
    && (forall key :: key in cp.completed ==> key in cp'.completed && cp'.completed[key] == cp.completed[key])
  }

  lemma MoreAgain(cp: Checkpoint, cp': Checkpoint, cp'': Checkpoint)
    requires FetchedMore(cp, cp') && FetchedMore(cp', cp'')
    ensures FetchedMore(cp, cp'') && cp'.completed.Keys <= cp''.completed.Keys
  {
    forall key | key in cp'.completed.Keys ensures key in cp''.completed.Keys {
      assert key in cp'.completed;
    }
  }

  /** How a fetched checkpoint gets stuck: an account was renamed, and one of its older posts is
      kept under the former handle. */
  lemma RenameGetsStuck(cp: Checkpoint, base: M.Snapshot, b: M.Batch, a: M.Account, p: M.Post, r: S.Registry, hash: int -> int)
    requires S.ValidRegistry(r) && cp.stage.Fetching? && Covered(cp.completed, Selected(cp, r, hash))
    requires Decode(cp.baseline) == Some(base) && M.ValidSnapshot(base, r) && BatchOf(cp, r, hash) == Some(b)
    requires a in b.accounts && p in M.KeptPosts(base, b, r, hash) && p.key == a.key && p.handle != a.handle
    ensures StuckAt(cp, r, hash)
  {
    forall now ensures M.MergeResult(base, b, r, hash, now).None? {
      M.RenameBlocksMerge(base, b, r, hash, now, a, p);
    }
  }

  lemma NeverMerges(cp: Checkpoint, base: M.Snapshot, b: M.Batch, r: S.Registry, hash: int -> int)
    requires S.ValidRegistry(r) && cp.stage.Fetching? && Covered(cp.completed, Selected(cp, r, hash))
    requires Decode(cp.baseline) == Some(base) && BatchOf(cp, r, hash) == Some(b)
    requires forall now :: M.MergeResult(base, b, r, hash, now).None?
    ensures StuckAt(cp, r, hash)
  { }

  /** When a checkpoint whose accounts are all fetched goes no further: exactly when they make no
      valid batch, or an account changed its source user, or an older post is kept under a
      former handle, or a source id by two accounts. No time is involved. */
  lemma StuckIff(cp: Checkpoint, base: M.Snapshot, r: S.Registry, hash: int -> int)
    requires S.ValidRegistry(r) && cp.stage.Fetching? && Covered(cp.completed, Selected(cp, r, hash))
    requires Decode(cp.baseline) == Some(base) && M.ValidSnapshot(base, r)
    ensures StuckAt(cp, r, hash) <==>
      match BatchOf(cp, r, hash)
      case None => true
      case Some(b) =>
        !(M.SameUsers(base.accounts, b.accounts) && M.HandlesCurrent(base, b, r, hash) && M.IdsApart(M.KeptPosts(base, b, r, hash)))
  {
    if BatchOf(cp, r, hash).Some? {
      var b := BatchOf(cp, r, hash).value;
      M.MergeSucceedsIff(base, b, r, hash, 0);
      if M.MergeResult(base, b, r, hash, 0).None? {
        forall now ensures M.MergeResult(base, b, r, hash, now).None? {
          M.MergeSucceedsIff(base, b, r, hash, now);
        }
        NeverMerges(cp, base, b, r, hash);
      }
    }
  }

  /** The account was renamed between the baseline and the fetch. */
  function Renamed(): Checkpoint {
    Checkpoint(0, Canonical(M.BeforeRename()), 0, 2, None, map[1 := Fetched(M.AfterRename().accounts[0], [], false)], Fetching, None)
  }

  lemma SoleAccountSorted(a: M.Account)
    ensures SortAccounts([a]) == [a]
  {
    AccountsKeyed([a]);
    assert Elems([a]) == {a};
    O.SortDescSpec({a}, M.ByAccount());
  }

  lemma RenamedFetched(hash: int -> int)
    ensures S.ValidRegistry(M.OneAccount()) && Selected(Renamed(), M.OneAccount(), hash) == M.OneAccount().accounts
    ensures M.ValidBatch(M.AfterRename(), M.OneAccount(), hash)
    ensures FetchedOk(Renamed(), M.OneAccount(), hash, 1, Renamed().completed[1])
  {
    M.OneShard(hash);
    M.RenameInputsValid(hash);
    M.OneAccountValid(M.Snapshot(2, M.AfterRename().accounts, []));
    assert M.OneAccount().accounts[0] in Selected(Renamed(), M.OneAccount(), hash);
  }

  lemma {:induction false} SoleFetched(completed: map<int, Fetched>, c: S.Source)
    requires c.key in completed && completed[c.key].posts == [] && !completed[c.key].exhausted
    ensures Covered(completed, [c])
    ensures Accounts(completed, [c]) == [completed[c.key].account]
    ensures Posts(completed, [c]) == [] && Exhausted(completed, [c]) == []
  {
    assert [c][..0] == [];
  }

  lemma NoPostsSorted()
    ensures SortPosts([]) == []
  {
    M.PostsKeyed({});
    O.SortDescSpec({}, M.ByPost());
  }

  lemma RenamedAssembled(sources: seq<S.Source>)
    requires sources == M.OneAccount().accounts
    ensures Covered(Renamed().completed, sources) && Assemble(Renamed(), sources) == M.AfterRename()
  {
    SoleFetched(Renamed().completed, S.Source(1, 1, 1, true, 40));
    SoleAccountSorted(M.AfterRename().accounts[0]);
    NoPostsSorted();
  }

  lemma AssembledBatch(cp: Checkpoint, b: M.Batch, r: S.Registry, hash: int -> int)
    requires S.ValidRegistry(r) && 0 <= cp.shard < S.SHARD_COUNT && Covered(cp.completed, Selected(cp, r, hash))
    requires Assemble(cp, Selected(cp, r, hash)) == b && M.ValidBatch(b, r, hash)
    ensures BatchOf(cp, r, hash) == Some(b)
  { }

  lemma FetchingOk(cp: Checkpoint, r: S.Registry, hash: int -> int)
    requires S.ValidRegistry(r) && Shape(cp) && cp.stage.Fetching?
    requires forall key :: key in cp.completed ==> FetchedOk(cp, r, hash, key, cp.completed[key])
    ensures CheckpointOk(cp, r, hash)
  { }

  lemma RenamedOk(hash: int -> int)
    ensures CheckpointOk(Renamed(), M.OneAccount(), hash)
  {
    RenamedFetched(hash);
    forall key | key in Renamed().completed ensures FetchedOk(Renamed(), M.OneAccount(), hash, key, Renamed().completed[key]) {
      assert key == 1;
    }
    FetchingOk(Renamed(), M.OneAccount(), hash);
  }

  lemma RenamedBatch(hash: int -> int)
    ensures S.ValidRegistry(M.OneAccount()) && Covered(Renamed().completed, Selected(Renamed(), M.OneAccount(), hash))
    ensures BatchOf(Renamed(), M.OneAccount(), hash) == Some(M.AfterRename())
  {
    RenamedFetched(hash);
    RenamedAssembled(Selected(Renamed(), M.OneAccount(), hash));
    AssembledBatch(Renamed(), M.AfterRename(), M.OneAccount(), hash);
  }

  lemma RenamedStuck(hash: int -> int)
    ensures StuckAt(Renamed(), M.OneAccount(), hash) && Readable(Renamed().baseline, M.OneAccount())
  {
    RenamedBatch(hash);
    forall now ensures M.MergeResult(M.BeforeRename(), M.AfterRename(), M.OneAccount(), hash, now).None? {
      M.RenameExample(hash, now);
    }
    M.RenameExample(hash, 0);
    NeverMerges(Renamed(), M.BeforeRename(), M.AfterRename(), M.OneAccount(), hash);
  }

  /** A consistent checkpoint on a valid baseline, every account fetched, that goes no further. */
  lemma StuckExample(hash: int -> int)
    ensures CheckpointOk(Renamed(), M.OneAccount(), hash) && Readable(Renamed().baseline, M.OneAccount())
    ensures BatchOf(Renamed(), M.OneAccount(), hash) == Some(M.AfterRename())
    ensures StuckAt(Renamed(), M.OneAccount(), hash)
  {
    RenamedOk(hash);
    RenamedBatch(hash);
    RenamedStuck(hash);
  }

  /** A checkpoint that is stuck has nothing left to fetch. */
  lemma StuckIsFetched(cp: Checkpoint, rules: Rules, r: S.Registry, hash: int -> int)
    requires Govern(rules, r, hash) && rules.stuck(cp)
    ensures rules.covered(cp)
  {
    assert About(cp);
  }

  function KeysOf(sources: seq<S.Source>): set<int> {
    if sources == [] then {} else KeysOf(sources[..|sources| - 1]) + {sources[|sources| - 1].key}
  }

  lemma {:induction false} KeysOfWithin(sources: seq<S.Source>, keys: set<int>)
    ensures KeysOf(sources) <= keys <==> forall i :: 0 <= i < |sources| ==> sources[i].key in keys
  {
    if sources != [] {
      var n := |sources| - 1;
      KeysOfWithin(sources[..n], keys);
      assert forall i :: 0 <= i < n ==> sources[..n][i] == sources[i];
      if KeysOf(sources) <= keys {
        assert sources[n].key in KeysOf(sources);
      }
    }
  }

  lemma {:induction false} KeysOfNext(sources: seq<S.Source>, i: nat)
    requires i < |sources|
    ensures KeysOf(sources[..i + 1]) == KeysOf(sources[..i]) + {sources[i].key}
    ensures sources[i].key in KeysOf(sources)
  {
    assert sources[..i + 1][..i] == sources[..i];
    KeysOfWithin(sources, KeysOf(sources));
  }

  lemma {:induction false} FetchedIff(cp: Checkpoint, selected: seq<S.Source>, rules: Rules, r: S.Registry, hash: int -> int)
    requires Govern(rules, r, hash) && S.ValidRegistry(r) && selected == Selected(cp, r, hash)
    ensures rules.covered(cp) <==> KeysOf(selected) <= cp.completed.Keys
  {
    assert About(cp);
    KeysOfWithin(selected, cp.completed.Keys);
    assert Covered(cp.completed, selected) <==> forall i :: 0 <= i < |selected| ==> selected[i].key in cp.completed.Keys;
  }

  lemma IsWanted(cp: Checkpoint, c: S.Source, rules: Rules, r: S.Registry, hash: int -> int)
    requires Govern(rules, r, hash) && S.ValidRegistry(r) && c in Selected(cp, r, hash)
    ensures rules.wanted(cp, c.key)
  {
    assert AboutKey(cp, c.key);
    assert Wanted(cp, r, hash, c.key);
  }

  lemma AllWanted(cp: Checkpoint, selected: seq<S.Source>, rules: Rules, r: S.Registry, hash: int -> int)
    requires Govern(rules, r, hash) && S.ValidRegistry(r) && selected == Selected(cp, r, hash)
    ensures forall i :: 0 <= i < |selected| ==> rules.wanted(cp, selected[i].key)
  {
    forall i | 0 <= i < |selected| ensures rules.wanted(cp, selected[i].key) {
      IsWanted(cp, selected[i], rules, r, hash);
    }
  }

  /** Whether an account is well fetched depends on the shard and the time of the checkpoint. */
  lemma FetchedElsewhere(cp: Checkpoint, cp': Checkpoint, r: S.Registry, hash: int -> int, key: int, f: Fetched)
    requires S.ValidRegistry(r) && cp'.shard == cp.shard && cp'.startedAt == cp.startedAt
    requires FetchedOk(cp, r, hash, key, f)
    ensures FetchedOk(cp', r, hash, key, f)
  { }

  lemma ServedFits(origin: Checkpoint, cp: Checkpoint, cp': Checkpoint, key: int, f: Fetched, r: S.Registry, hash: int -> int)
    requires CheckpointOk(cp, r, hash) && cp.stage.Fetching? && origin.shard == cp.shard && origin.startedAt == cp.startedAt
    requires FetchedOk(origin, r, hash, key, f) && cp' == cp.(completed := cp.completed[key := f], retryNotBefore := None)
    ensures CheckpointOk(cp', r, hash)
  {
    forall k | k in cp'.completed ensures FetchedOk(cp', r, hash, k, cp'.completed[k]) {
      FetchedElsewhere(if k == key then origin else cp, cp', r, hash, k, cp'.completed[k]);
    }
  }

  lemma OnlyDataServes(cp: Checkpoint, key: int, reply: Reply, rules: Rules, r: S.Registry, hash: int -> int)
    requires Govern(rules, r, hash)
    ensures rules.served(cp, key, reply) ==> reply.Data?
  {
    ServedMeans(cp, key, reply, rules, r, hash);
  }

  /** A reply that serves the checkpoint can be saved. */
  lemma ServedOk(origin: Checkpoint, cp: Checkpoint, key: int, reply: Reply, rules: Rules, r: S.Registry, hash: int -> int)
    requires Govern(rules, r, hash) && rules.ok(cp) && cp.stage.Fetching? && origin.shard == cp.shard && origin.startedAt == cp.startedAt
    requires rules.served(origin, key, reply)
    ensures reply.Data? && rules.ok(cp.(completed := cp.completed[key := reply.fetched], retryNotBefore := None))
  {
    ServedMeans(origin, key, reply, rules, r, hash);
    var cp' := cp.(completed := cp.completed[key := reply.fetched], retryNotBefore := None);
    OkMeans(cp, rules, r, hash);
    OkMeans(cp', rules, r, hash);
    ServedFits(origin, cp, cp', key, reply.fetched, r, hash);
  }

  /** A fetched checkpoint whose batch is refused, or whose merge fails now, goes no further at
      any time. */
  lemma MergeDecides(cp: Checkpoint, base: M.Snapshot, now: int, rules: Rules, r: S.Registry, hash: int -> int)
    requires Govern(rules, r, hash) && rules.readable(cp.baseline) && cp.stage.Fetching? && Decode(cp.baseline) == Some(base)
    ensures rules.covered(cp) ==>
      (rules.stuck(cp) <==> BatchOf(cp, r, hash).None? || M.MergeResult(base, BatchOf(cp, r, hash).value, r, hash, now).None?)
    ensures rules.stuck(cp) ==> rules.covered(cp)
  {
    ReadableFile(cp.baseline, rules, r, hash);
    assert About(cp);
    if rules.covered(cp) {
      StuckIff(cp, base, r, hash);
      if BatchOf(cp, r, hash).Some? {
        M.MergeSucceedsIff(base, BatchOf(cp, r, hash).value, r, hash, now);
      }
    }
  }

  /** While a checkpoint is on disk the file is a valid snapshot. */
  lemma FileReadable(d: Disk, book: Book, cp: Checkpoint, rules: Rules, r: S.Registry, hash: int -> int)
    requires Inv(d, book, rules) && Govern(rules, r, hash) && d.checkpoint == Some(cp)
    ensures Readable(d.file, r)
  {
    ReadableFile(cp.baseline, rules, r, hash);
    if !cp.stage.Fetching? {
      SavedBatchFacts(cp, rules, r, hash);
    }
  }

  // ---------------------------------------------------------------------------
  // Runs
  // ---------------------------------------------------------------------------

  /** Some durable operation of this stretch was lost or cut short. */
  ghost predicate Mishap(env: Env, from: nat, upto: nat) {
    exists k :: from <= k < upto && !env.outcome(k).Done?
  }

  /** A cooldown saved earlier had not yet passed. */
  ghost predicate Cooling(env: Env, cp: Checkpoint, from: nat, upto: nat) {
    cp.retryNotBefore.Some? && exists k :: from <= k < upto && env.clock(k) < cp.retryNotBefore.value
  }

  /** The source did not answer with a valid snapshot of an account of the shard. */
  ghost predicate Unserved(env: Env, cp: Checkpoint, rules: Rules, from: nat, upto: nat) {
    exists k, key :: from <= k < upto && rules.wanted(cp, key) && !rules.served(cp, key, env.fetch(k, key))
  }

  function CompletedOf(cp: Option<Checkpoint>): map<int, Fetched> {
    if cp.Some? then cp.value.completed else map[]
  }

  /** Something from outside kept the checkpoint from being fetched and saved. */
  ghost predicate Obstructed(env: Env, cp: Checkpoint, rules: Rules, from: nat, upto: nat) {
    Mishap(env, from, upto) || Cooling(env, cp, from, upto) || Unserved(env, cp, rules, from, upto)
  }

  datatype Mode = Auto | Manual(shard: int)

  class Refresher {
    const r: S.Registry
    const hash: int -> int
    ghost const rules: Rules
    var disk: Disk
    var tick: nat
    ghost var book: Book

    ghost predicate Valid()
      reads this`disk, this`book
    {
      Inv(disk, book, rules)
    }

    /** The disk just after a checkpoint was carried to its end with this result. */
    ghost predicate Ends(result: Completion)
      reads this`disk, this`book
    {
      && disk.checkpoint.None?
      && disk.file == Canonical(result.snapshot)
      && |book.rounds| > 0
      && book.rounds[|book.rounds| - 1].batch == result.batch
      && book.rounds[|book.rounds| - 1].next == result.snapshot
    }

    constructor (r: S.Registry, hash: int -> int, file: Content)
      ensures this.r == r && this.hash == hash && Ruled() && Valid()
      ensures disk == Disk(file, None, []) && book == Book(file, [], 0)
    {
      this.r, this.hash, this.disk, this.tick := r, hash, Disk(file, None, []), 0;
      this.book, this.rules := Book(file, [], 0), RulesOf(r, hash);
      RulesGovern(r, hash);
    }

    method Now(env: Env) returns (now: int)
      modifies this`tick
      ensures now == env.clock(old(tick)) && tick == old(tick) + 1
    {
      now := env.clock(tick);
      tick := tick + 1;
    }

    /** The checkpoint file is replaced as a whole or not at all. */
    method WriteCheckpoint(cp: Checkpoint, env: Env) returns (ok: bool)
      modifies this`disk, this`tick
      ensures disk == old(disk) || (Shape(cp) && disk == old(disk).(checkpoint := Some(cp)))
      ensures ok ==> Shape(cp) && disk == old(disk).(checkpoint := Some(cp))
      ensures tick >= old(tick) && (Shape(cp) && !ok ==> Mishap(env, old(tick), tick))
    {
      if !Shape(cp) {
        return false;
      }
      var outcome := env.outcome(tick);
      tick := tick + 1;
      if outcome.Lost? {
        return false;
      }
      disk := disk.(checkpoint := Some(cp));
      ok := outcome.Done?;
    }

    /** The database commits the whole batch or none of it; a committed batch may still be
        reported as failed. */
    method Apply(b: M.Batch, env: Env, ghost cp: Checkpoint) returns (ok: bool)
      requires Valid() && disk.checkpoint == Some(cp) && cp.stage.Ready? && rules.batchOf(cp) == Some(b)
      modifies this`disk, this`tick, this`book
      ensures Valid()
      ensures disk == old(disk).(applied := disk.applied)
      ensures ok ==> book.pending >= 1 && disk.applied == old(disk.applied) + [b]
      ensures tick >= old(tick) && (!ok ==> Mishap(env, old(tick), tick))
      ensures book.initial == old(book.initial) && book.rounds == old(book.rounds)
    {
      var outcome := env.outcome(tick);
      tick := tick + 1;
      if outcome.Lost? {
        return false;
      }
      ApplyKeeps(disk, book, cp, b, rules);
      disk := disk.(applied := disk.applied + [b]);
      book := book.(pending := book.pending + 1);
      ok := outcome.Done?;
    }

    /** The snapshot file is replaced only while it still has the expected content. */
    method WriteSnapshotIfUnchanged(expected: Content, s: M.Snapshot, env: Env, ghost cp: Checkpoint) returns (ok: bool)
      requires Valid() && disk.checkpoint == Some(cp) && cp.stage.Synced? && cp.next == Some(s)
      modifies this`disk, this`tick
      ensures Valid()
      ensures disk == old(disk).(file := disk.file)
      ensures disk.file == old(disk.file) || (old(disk.file) == expected && disk.file == Canonical(s))
      ensures ok ==> disk.file == Canonical(s)
      ensures tick >= old(tick)
      ensures old(disk.file) == expected && M.ValidSnapshot(s, r) && !ok ==> Mishap(env, old(tick), tick)
    {
      if disk.file != expected {
        return false;
      }
      var valid := M.ValidateSnapshot(s, r);
      if !valid {
        return false;
      }
      var outcome := env.outcome(tick);
      tick := tick + 1;
      if outcome.Lost? {
        return false;
      }
      FileKeeps(disk, book, cp, rules);
      disk := disk.(file := Canonical(s));
      ok := outcome.Done?;
    }

    method RemoveCheckpoint(env: Env, ghost cp: Checkpoint, ghost b: M.Batch) returns (ok: bool)
      requires Valid() && disk.checkpoint == Some(cp) && cp.stage.Synced? && rules.batchOf(cp) == Some(b)
      requires cp.next.Some? && disk.file == Canonical(cp.next.value)
      modifies this`disk, this`tick, this`book
      ensures Valid()
      ensures disk == old(disk).(checkpoint := disk.checkpoint)
      ensures ok ==> disk.checkpoint.None? && book == Close(old(book), b, cp.next.value)
      ensures disk.checkpoint.Some? ==> disk.checkpoint == old(disk.checkpoint)
      ensures tick >= old(tick) && (!ok ==> Mishap(env, old(tick), tick))
      ensures book.initial == old(book.initial)
    {
      var outcome := env.outcome(tick);
      tick := tick + 1;
      if outcome.Lost? {
        return false;
      }
      RemoveKeeps(disk, book, cp, b, rules);
      disk := disk.(checkpoint := None);
      book := Close(book, b, cp.next.value);
      ok := outcome.Done?;
    }

    ghost predicate Ruled() {
      Govern(rules, r, hash)
    }

    /** A saved step of fetching. */
    method SaveFetching(ghost cp: Checkpoint, cp': Checkpoint, env: Env) returns (ok: bool)
      requires Valid() && disk.checkpoint == Some(cp) && cp.stage.Fetching?
      requires rules.ok(cp') && Shape(cp') && cp'.stage.Fetching? && cp'.baseline == cp.baseline
      modifies this`disk, this`tick
      ensures Valid()
      ensures tick >= old(tick)
      ensures disk == old(disk) || disk == old(disk).(checkpoint := Some(cp'))
      ensures ok ==> disk.checkpoint == Some(cp')
      ensures !ok ==> Mishap(env, old(tick), tick)
    {
      SaveKeeps(disk, book, cp, cp', rules);
      ok := WriteCheckpoint(cp', env);
    }

    /** Fetch what is missing and save after every account; a rate limit saves its cooldown.
        Wherever it stops, the saved checkpoint has only been added to. */
    method FetchPending(cp0: Checkpoint, env: Env, config: int) returns (cp: Checkpoint, ok: bool)
      requires Valid() && Ruled() && disk.checkpoint == Some(cp0) && cp0.stage.Fetching? && cp0.config == config
      modifies this`disk, this`tick
      ensures Valid()
      ensures tick >= old(tick)
      ensures disk == old(disk).(checkpoint := disk.checkpoint)
      ensures disk.checkpoint.Some? && FetchedMore(cp0, disk.checkpoint.value)
      ensures ok ==> disk.checkpoint == Some(cp) && rules.covered(cp)
      ensures rules.gathered(env, cp0.completed, disk.checkpoint.value.completed, old(tick), tick)
      ensures rules.limited(env, cp0, disk.checkpoint.value, old(tick), tick)
      ensures cp0.retryNotBefore.Some? && env.clock(old(tick)) < cp0.retryNotBefore.value ==> !ok && disk == old(disk) && tick == old(tick) + 1
      ensures !ok ==> Mishap(env, old(tick), tick) || Cooling(env, cp0, old(tick), tick) || rules.stopped(env, cp0, disk.checkpoint.value, old(tick), tick)
      ensures rules.stuck(cp0) ==> disk == old(disk) && (ok ==> cp == cp0)
    {
      cp := cp0;
      var now := Now(env);
      NothingGathered(env, cp0, old(tick), tick, rules, r, hash);
      if cp.retryNotBefore.Some? && now < cp.retryNotBefore.value {
        return cp, false;
      }
      ghost var since := tick;
      cp, ok := FetchShard(cp0, env, config);
      GatheredOn(env, cp0.completed, cp0.completed, disk.checkpoint.value.completed, old(tick), since, tick, rules, r, hash);
      LimitedOn(env, cp0, cp0, disk.checkpoint.value, old(tick), since, tick, rules, r, hash);
      if rules.stopped(env, cp0, disk.checkpoint.value, since, tick) {
        StoppedWidens(env, cp0, disk.checkpoint.value, old(tick), since, tick, rules, r, hash);
      }
    }

    /** The accounts of the shard, once no cooldown holds. */
    method FetchShard(cp0: Checkpoint, env: Env, config: int) returns (cp: Checkpoint, ok: bool)
      requires Valid() && Ruled() && disk.checkpoint == Some(cp0) && cp0.stage.Fetching? && cp0.config == config
      modifies this`disk, this`tick
      ensures Valid()
      ensures tick >= old(tick)
      ensures disk == old(disk).(checkpoint := disk.checkpoint)
      ensures disk.checkpoint.Some? && FetchedMore(cp0, disk.checkpoint.value) && cp0.completed.Keys <= disk.checkpoint.value.completed.Keys
      ensures ok ==> disk.checkpoint == Some(cp) && rules.covered(cp)
      ensures rules.gathered(env, cp0.completed, disk.checkpoint.value.completed, old(tick), tick)
      ensures rules.limited(env, cp0, disk.checkpoint.value, old(tick), tick)
      ensures !ok ==> Mishap(env, old(tick), tick) || rules.stopped(env, cp0, disk.checkpoint.value, old(tick), tick)
      ensures rules.stuck(cp0) ==> disk == old(disk) && (ok ==> cp == cp0)
    {
      var selected := S.SelectShardAccounts(r, hash, cp0.shard);
      Selectable(cp0, rules, r, hash);
      if selected.None? {
        assert false;
        return cp0, false;
      }
      M.SelectedSubset(r, hash, cp0.shard, selected.value);
      AllWanted(cp0, selected.value, rules, r, hash);
      if rules.stuck(cp0) {
        StuckIsFetched(cp0, rules, r, hash);
      }
      FetchedIff(cp0, selected.value, rules, r, hash);
      cp, ok := FetchEach(cp0, selected.value, env, config, rules.stuck(cp0));
      FetchedIff(disk.checkpoint.value, selected.value, rules, r, hash);
    }

    /** The loop over the accounts of the shard; nothing is fetched when `complete`. */
    method FetchEach(cp0: Checkpoint, selected: seq<S.Source>, env: Env, config: int, ghost complete: bool)
      returns (cp: Checkpoint, ok: bool)
      requires Valid() && Ruled() && disk.checkpoint == Some(cp0) && cp0.stage.Fetching? && cp0.config == config
      requires forall i :: 0 <= i < |selected| ==> rules.wanted(cp0, selected[i].key)
      requires complete ==> KeysOf(selected) <= cp0.completed.Keys
      modifies this`disk, this`tick
      ensures Valid()
      ensures tick >= old(tick)
      ensures disk == old(disk).(checkpoint := disk.checkpoint)
      ensures disk.checkpoint.Some? && FetchedMore(cp0, disk.checkpoint.value) && cp0.completed.Keys <= disk.checkpoint.value.completed.Keys
      ensures ok ==> disk.checkpoint == Some(cp) && KeysOf(selected) <= cp.completed.Keys
      ensures rules.gathered(env, cp0.completed, disk.checkpoint.value.completed, old(tick), tick)
      ensures rules.limited(env, cp0, disk.checkpoint.value, old(tick), tick)
      ensures !ok ==> Mishap(env, old(tick), tick) || rules.stopped(env, cp0, disk.checkpoint.value, old(tick), tick)
      ensures complete ==> disk == old(disk) && (ok ==> cp == cp0)
    {
      cp := cp0;
      NothingGathered(env, cp0, tick, tick, rules, r, hash);
      for i := 0 to |selected|
        invariant Valid() && disk.checkpoint == Some(cp) && disk == old(disk).(checkpoint := disk.checkpoint) && tick >= old(tick)
        invariant FetchedMore(cp0, cp) && (complete ==> cp == cp0)
        invariant KeysOf(selected[..i]) <= cp.completed.Keys && cp0.completed.Keys <= cp.completed.Keys
        invariant rules.gathered(env, cp0.completed, cp.completed, old(tick), tick) && rules.limited(env, cp0, cp, old(tick), tick)
      {
        KeysOfNext(selected, i);
        ghost var before, since := cp, tick;
        cp, ok := FetchNext(cp, selected[i].key, env, config, cp0);
        GatheredOn(env, cp0.completed, before.completed, disk.checkpoint.value.completed, old(tick), since, tick, rules, r, hash);
        LimitedOn(env, cp0, before, disk.checkpoint.value, old(tick), since, tick, rules, r, hash);
        if !ok {
          if rules.stopped(env, cp0, disk.checkpoint.value, since, tick) {
            StoppedWidens(env, cp0, disk.checkpoint.value, old(tick), since, tick, rules, r, hash);
          }
          return cp, false;
        }
      }
      assert selected[..|selected|] == selected;
      ok := true;
    }

    /** One account, unless it was fetched before. */
    method FetchNext(cp0: Checkpoint, key: int, env: Env, config: int, ghost origin: Checkpoint) returns (cp: Checkpoint, ok: bool)
      requires Valid() && Ruled() && disk.checkpoint == Some(cp0) && cp0.stage.Fetching? && cp0.config == config
      requires FetchedMore(origin, cp0) && rules.wanted(origin, key)
      modifies this`disk, this`tick
      ensures Valid()
      ensures tick >= old(tick)
      ensures disk == old(disk).(checkpoint := disk.checkpoint)
      ensures disk.checkpoint.Some? && FetchedMore(origin, disk.checkpoint.value) && cp0.completed.Keys <= disk.checkpoint.value.completed.Keys
      ensures ok ==> disk.checkpoint == Some(cp) && key in cp.completed
      ensures key in cp0.completed ==> ok && cp == cp0 && disk == old(disk)
      ensures rules.gathered(env, cp0.completed, disk.checkpoint.value.completed, old(tick), tick)
      ensures rules.limited(env, cp0, disk.checkpoint.value, old(tick), tick)
      ensures !ok ==> Mishap(env, old(tick), tick) || rules.stopped(env, origin, disk.checkpoint.value, old(tick), tick)
    {
      cp, ok := cp0, true;
      NothingGathered(env, cp0, tick, tick, rules, r, hash);
      if key !in cp.completed {
        cp, ok := FetchOne(cp, key, env, config, origin);
        MoreAgain(origin, cp0, disk.checkpoint.value);
      }
    }

    method FetchOne(cp0: Checkpoint, key: int, env: Env, config: int, ghost origin: Checkpoint)
      returns (cp: Checkpoint, ok: bool)
      requires Valid() && Ruled() && disk.checkpoint == Some(cp0) && cp0.stage.Fetching? && cp0.config == config && key !in cp0.completed
      requires origin.shard == cp0.shard && origin.startedAt == cp0.startedAt && rules.wanted(origin, key)
      modifies this`disk, this`tick
      ensures Valid()
      ensures tick >= old(tick)
      ensures disk == old(disk).(checkpoint := disk.checkpoint)
      ensures disk.checkpoint.Some? && FetchedMore(cp0, disk.checkpoint.value)
      ensures forall added :: added in disk.checkpoint.value.completed && added !in cp0.completed ==>
        added == key && env.fetch(old(tick), key) == Data(disk.checkpoint.value.completed[key])
      ensures rules.gathered(env, cp0.completed, disk.checkpoint.value.completed, old(tick), tick)
      ensures rules.limited(env, cp0, disk.checkpoint.value, old(tick), tick)
      ensures ok ==> disk.checkpoint == Some(cp) && key in cp.completed
      ensures !ok ==> Mishap(env, old(tick), tick) || rules.stopped(env, origin, disk.checkpoint.value, old(tick), tick)
    {
      cp := cp0;
      var reply := env.fetch(tick, key);
      tick := tick + 1;
      OnlyDataServes(origin, key, reply, rules, r, hash);
      match reply {
        case FetchFailed =>
          NothingGathered(env, cp0, old(tick), tick, rules, r, hash);
          StoppedAt(env, origin, cp0, key, old(tick), tick, rules, r, hash);
          return cp, false;
        case RateLimited(retryAfter) =>
          CoolDown(cp0, key, retryAfter, env, origin, old(tick));
          return cp, false;
        case Data(fetched) =>
          cp, ok := KeepFetched(cp0, key, fetched, env, config, origin, old(tick));
      }
    }

    /** A rate limit that says how long to wait has that saved. */
    method CoolDown(cp0: Checkpoint, ghost key: int, retryAfter: int, env: Env, ghost origin: Checkpoint, ghost k: nat)
      requires Valid() && Ruled() && disk.checkpoint == Some(cp0) && cp0.stage.Fetching? && tick == k + 1
      requires rules.wanted(origin, key) && env.fetch(k, key) == RateLimited(retryAfter) && !rules.served(origin, key, env.fetch(k, key))
      modifies this`disk, this`tick
      ensures Valid()
      ensures tick >= old(tick)
      ensures disk == old(disk).(checkpoint := disk.checkpoint)
      ensures disk.checkpoint.Some? && disk.checkpoint.value == cp0.(retryNotBefore := disk.checkpoint.value.retryNotBefore)
      ensures rules.gathered(env, cp0.completed, disk.checkpoint.value.completed, k, tick)
      ensures rules.limited(env, cp0, disk.checkpoint.value, k, tick)
      ensures Mishap(env, old(tick), tick) || rules.stopped(env, origin, disk.checkpoint.value, k, tick)
    {
      if retryAfter > 0 {
        SaveCooldown(cp0, retryAfter, env);
      }
      LimitFacts(env, cp0, disk.checkpoint.value, origin, key, retryAfter, k, tick, rules, r, hash);
    }

    /** An account that was fetched is added to the checkpoint, as it is, and saved. */
    method KeepFetched(cp0: Checkpoint, key: int, fetched: Fetched, env: Env, config: int, ghost origin: Checkpoint, ghost k: nat)
      returns (cp: Checkpoint, ok: bool)
      requires Valid() && Ruled() && disk.checkpoint == Some(cp0) && cp0.stage.Fetching? && cp0.config == config && key !in cp0.completed
      requires origin.shard == cp0.shard && origin.startedAt == cp0.startedAt && rules.wanted(origin, key)
      requires tick == k + 1 && env.fetch(k, key) == Data(fetched)
      modifies this`disk, this`tick
      ensures Valid()
      ensures tick >= old(tick)
      ensures disk == old(disk) || disk == old(disk).(checkpoint := Some(cp))
      ensures cp == cp0.(completed := cp0.completed[key := fetched], retryNotBefore := None)
      ensures rules.gathered(env, cp0.completed, disk.checkpoint.value.completed, k, tick)
      ensures rules.limited(env, cp0, disk.checkpoint.value, k, tick)
      ensures ok ==> disk.checkpoint == Some(cp)
      ensures !ok ==> Mishap(env, old(tick), tick) || rules.stopped(env, origin, disk.checkpoint.value, k, tick)
    {
      cp := cp0.(completed := cp0.completed[key := fetched], retryNotBefore := None);
      if rules.served(origin, key, env.fetch(k, key)) {
        ServedOk(origin, cp0, key, env.fetch(k, key), rules, r, hash);
      }
      ok := SaveAccount(cp0, cp, env, config);
      OneGathered(env, cp0, cp, key, fetched, k, tick, rules, r, hash);
      NothingGathered(env, cp0, k, tick, rules, r, hash);
      if !rules.served(origin, key, env.fetch(k, key)) {
        StoppedAt(env, origin, disk.checkpoint.value, key, k, tick, rules, r, hash);
      }
    }

    method SaveCooldown(cp: Checkpoint, retryAfter: int, env: Env)
      requires Valid() && Ruled() && disk.checkpoint == Some(cp) && cp.stage.Fetching?
      modifies this`disk, this`tick
      ensures Valid()
      ensures tick >= old(tick)
      ensures disk == old(disk).(checkpoint := disk.checkpoint)
      ensures disk.checkpoint.Some? && disk.checkpoint.value == cp.(retryNotBefore := disk.checkpoint.value.retryNotBefore)
      ensures tick > old(tick) && (disk.checkpoint.value == cp || disk.checkpoint.value.retryNotBefore == Some(env.clock(old(tick)) + retryAfter))
      ensures disk.checkpoint.value.retryNotBefore == Some(env.clock(old(tick)) + retryAfter) || Mishap(env, old(tick), tick)
    {
      var now := Now(env);
      var cp' := cp.(retryNotBefore := Some(now + retryAfter));
      CooldownOk(cp, cp', rules, r, hash);
      var saved := SaveFetching(cp, cp', env);
    }

    method SaveAccount(ghost cp: Checkpoint, cp': Checkpoint, env: Env, config: int) returns (ok: bool)
      requires Valid() && Ruled() && disk.checkpoint == Some(cp) && cp.stage.Fetching?
      requires cp'.stage.Fetching? && cp'.baseline == cp.baseline
      modifies this`disk, this`tick
      ensures Valid()
      ensures tick >= old(tick)
      ensures disk == old(disk) || disk == old(disk).(checkpoint := Some(cp'))
      ensures ok ==> disk.checkpoint == Some(cp')
      ensures !ok ==> Mishap(env, old(tick), tick) || cp'.config != config || !rules.ok(cp')
    {
      assert About(cp');
      var valid := ValidateCheckpoint(cp', r, hash, config);
      if !valid {
        return false;
      }
      ok := SaveFetching(cp, cp', env);
    }

    /** Build the batch and merge it. */
    method Merge(cp: Checkpoint, base: M.Snapshot, env: Env) returns (cp': Checkpoint, ok: bool)
      requires Ruled() && rules.ok(cp) && cp.stage.Fetching? && Decode(cp.baseline) == Some(base) && rules.readable(cp.baseline)
      modifies this`tick
      ensures tick >= old(tick)
      ensures ok ==> cp' == cp.(stage := Ready, next := cp'.next) && Exact(cp', rules)
      ensures rules.stuck(cp) ==> !ok
      ensures !ok && rules.covered(cp) ==> rules.stuck(cp)
    {
      cp' := cp;
      var batch := BatchFromCheckpoint(cp, r, hash);
      if batch.None? {
        MergeDecides(cp, base, 0, rules, r, hash);
        return cp', false;
      }
      var now := Now(env);
      var merged := M.MergeIncrementalSnapshot(base, batch.value, r, hash, now);
      MergeDecides(cp, base, now, rules, r, hash);
      if merged.None? {
        return cp', false;
      }
      cp' := cp.(stage := Ready, next := merged);
      ReadyOk(cp, cp', base, batch.value, merged.value, now, rules, r, hash);
      ok := true;
    }

    method SaveReady(ghost cp: Checkpoint, cp': Checkpoint, env: Env) returns (ok: bool)
      requires Valid() && disk.checkpoint == Some(cp) && cp.stage.Fetching?
      requires Exact(cp', rules) && cp'.stage.Ready? && cp'.baseline == cp.baseline
      modifies this`disk, this`tick
      ensures Valid()
      ensures tick >= old(tick)
      ensures disk == old(disk).(checkpoint := disk.checkpoint)
      ensures ok ==> disk.checkpoint == Some(cp')
      ensures disk == old(disk) || disk.checkpoint == Some(cp')
      ensures !ok ==> Mishap(env, old(tick), tick)
    {
      ReadyKeeps(disk, book, cp, cp', rules);
      ok := WriteCheckpoint(cp', env);
    }

    method MergeAndSave(cp0: Checkpoint, base: M.Snapshot, env: Env) returns (cp: Checkpoint, ok: bool)
      requires Valid() && Ruled() && disk.checkpoint == Some(cp0) && cp0.stage.Fetching? && Decode(cp0.baseline) == Some(base)
      modifies this`disk, this`tick
      ensures Valid()
      ensures tick >= old(tick)
      ensures disk == old(disk).(checkpoint := disk.checkpoint)
      ensures ok ==> disk.checkpoint == Some(cp) && cp == cp0.(stage := Ready, next := cp.next)
      ensures rules.stuck(cp0) ==> !ok && disk == old(disk)
      ensures !ok && rules.covered(cp0) ==> Mishap(env, old(tick), tick) || Blocks(disk)
      ensures disk.checkpoint.Some? && disk.checkpoint.value.completed == cp0.completed
    {
      cp, ok := Merge(cp0, base, env);
      if ok {
        ok := SaveReady(cp0, cp, env);
      }
    }

    /** Fetching carried through to a saved, merged batch. */
    method MakeReady(cp0: Checkpoint, base: M.Snapshot, env: Env, config: int) returns (cp: Checkpoint, ok: bool)
      requires Valid() && Ruled() && disk.checkpoint == Some(cp0) && cp0.stage.Fetching? && cp0.config == config
      requires Decode(cp0.baseline) == Some(base)
      modifies this`disk, this`tick
      ensures Valid()
      ensures tick >= old(tick)
      ensures disk == old(disk).(checkpoint := disk.checkpoint)
      ensures ok ==> disk.checkpoint == Some(cp) && cp.stage.Ready?
      ensures ok ==> cp == cp0.(stage := cp.stage, next := cp.next, completed := cp.completed, retryNotBefore := cp.retryNotBefore)
      ensures rules.stuck(cp0) ==> !ok && disk == old(disk)
      ensures !ok ==> Obstructed(env, cp0, rules, old(tick), tick) || Blocks(disk)
      ensures disk.checkpoint.Some? && rules.gathered(env, cp0.completed, disk.checkpoint.value.completed, old(tick), tick)
    {
      cp, ok := FetchPending(cp0, env, config);
      ghost var since := tick;
      if rules.stopped(env, cp0, disk.checkpoint.value, old(tick), tick) {
        StoppedIsUnserved(env, cp0, disk.checkpoint.value, old(tick), tick, rules, r, hash);
      }
      if ok {
        cp, ok := MergeAndSave(cp, base, env);
      }
      GatheredWidens(env, cp0.completed, disk.checkpoint.value.completed, old(tick), old(tick), since, tick, rules, r, hash);
    }

    /** Apply the batch and record that it was committed. */
    method ApplyAndRecord(cp: Checkpoint, b: M.Batch, env: Env) returns (cp': Checkpoint, ok: bool)
      requires Valid() && disk.checkpoint == Some(cp) && cp.stage.Ready? && rules.batchOf(cp) == Some(b)
      requires rules.ok(cp.(stage := Synced)) && rules.batchOf(cp.(stage := Synced)) == Some(b)
      modifies this`disk, this`tick, this`book
      ensures Valid()
      ensures disk.file == old(disk.file)
      ensures book.initial == old(book.initial) && book.rounds == old(book.rounds)
      ensures ok ==> disk.checkpoint == Some(cp') && cp' == cp.(stage := Synced) && disk.applied == old(disk.applied) + [b]
      ensures disk.checkpoint.Some? && disk.checkpoint.value.completed == cp.completed
      ensures tick >= old(tick) && (!ok ==> Mishap(env, old(tick), tick))
    {
      cp' := cp;
      ok := Apply(b, env, cp);
      if ok {
        cp' := cp.(stage := Synced);
        SyncedKeeps(disk, book, cp, cp', rules);
        ok := WriteCheckpoint(cp', env);
      }
    }

    /** The batch of a checkpoint past fetching, checked against its saved next snapshot. */
    method SavedBatch(cp: Checkpoint, base: M.Snapshot, current: Content) returns (b: M.Batch)
      requires Valid() && Ruled() && disk.checkpoint == Some(cp) && !cp.stage.Fetching?
      requires Decode(current) == Some(base)
      ensures rules.batchOf(cp) == Some(b) && b.shard == cp.shard && b.fetchedAt == cp.startedAt
      ensures cp.next.Some? && M.ValidSnapshot(cp.next.value, r)
    {
      SavedBatchFacts(cp, rules, r, hash);
      var batch := BatchFromCheckpoint(cp, r, hash);
      b := batch.value;
      if current == cp.baseline {
        var merged := M.MergeIncrementalSnapshot(base, b, r, hash, cp.next.value.fetchedAt);
        if merged != cp.next {
          assert false;
        }
      }
    }

    /** Carry the checkpoint on disk through to its end. With no other writer the snapshot file
        is never found changed, and a saved next snapshot always matches its batch. */
    method Complete(cp0: Checkpoint, base: M.Snapshot, current: Content, env: Env, config: int) returns (result: Option<Completion>)
      requires Valid() && Ruled() && disk.checkpoint == Some(cp0) && cp0.config == config
      requires disk.file == current && Decode(current) == Some(base)
      modifies this
      ensures Valid()
      ensures tick >= old(tick)
      ensures result.None? ==> Excused(env, cp0, old(tick), tick)
      ensures cp0.stage.Fetching? && rules.stuck(cp0) ==> result.None? && disk == old(disk)
      ensures Brought(env, cp0.completed, disk.checkpoint, Listed(result), old(tick), tick, rules)
      ensures book.initial == old(book.initial)
      ensures result.Some? ==>
        && Ends(result.value)
        && result.value.batch.shard == cp0.shard && result.value.batch.fetchedAt == cp0.startedAt
        && result.value.applied == !cp0.stage.Synced?
        && disk.applied == old(disk.applied) + (if result.value.applied then [result.value.batch] else [])
        && |book.rounds| == |old(book.rounds)| + 1 && old(book.rounds) <= book.rounds
    {
      var cp := cp0;
      GatheredSelf(env, cp0.completed, tick, tick, rules, r, hash);
      if current != cp.baseline {
        if !cp.stage.Synced? || current != Canonical(cp.next.value) {
          assert false;
          return None;
        }
      }
      if cp.stage.Fetching? {
        var ok;
        cp, ok := MakeReady(cp, base, env, config);
        if !ok {
          BroughtBy(env, cp0.completed, disk.checkpoint, None, old(tick), tick, tick, rules, r, hash);
          return None;
        }
      }
      result := CompleteReady(cp, base, current, env, cp0.completed, old(tick));
    }

    /** A checkpoint past fetching, of what was gathered `from` on. */
    method CompleteReady(cp: Checkpoint, base: M.Snapshot, current: Content, env: Env, ghost before: map<int, Fetched>, ghost from: nat)
      returns (result: Option<Completion>)
      requires Valid() && Ruled() && disk.checkpoint == Some(cp) && !cp.stage.Fetching?
      requires disk.file == current && Decode(current) == Some(base)
      requires from <= tick && rules.gathered(env, before, cp.completed, from, tick)
      modifies this
      ensures Valid()
      ensures tick >= old(tick) && (result.None? ==> Mishap(env, old(tick), tick))
      ensures Brought(env, before, disk.checkpoint, Listed(result), from, tick, rules)
      ensures book.initial == old(book.initial)
      ensures result.Some? ==>
        && Ends(result.value)
        && result.value.batch.shard == cp.shard && result.value.batch.fetchedAt == cp.startedAt
        && result.value.applied == cp.stage.Ready?
        && disk.applied == old(disk.applied) + (if result.value.applied then [result.value.batch] else [])
        && |book.rounds| == |old(book.rounds)| + 1 && old(book.rounds) <= book.rounds
    {
      var b := SavedBatch(cp, base, current);
      if cp.stage.Ready? {
        SyncedOk(cp, cp.(stage := Synced), rules, r, hash);
      }
      ghost var since := tick;
      SourcedFrom(env, before, cp, b, from, since, rules, r, hash);
      result := Finish(cp, b, current, env);
      BroughtBy(env, before, disk.checkpoint, result, from, since, tick, rules, r, hash);
    }

    /** The database was applied; the snapshot file and then the checkpoint follow. */
    method Persist(cp: Checkpoint, b: M.Batch, current: Content, env: Env) returns (ok: bool)
      requires Valid() && disk.checkpoint == Some(cp) && cp.stage.Synced? && rules.batchOf(cp) == Some(b)
      requires disk.file == current && cp.next.Some? && M.ValidSnapshot(cp.next.value, r)
      modifies this`disk, this`tick, this`book
      ensures Valid()
      ensures tick >= old(tick) && (!ok ==> Mishap(env, old(tick), tick))
      ensures ok ==> disk.checkpoint.None? && disk.file == Canonical(cp.next.value) && book == Close(old(book), b, cp.next.value)
      ensures disk.checkpoint.Some? ==> disk.checkpoint.value.completed == cp.completed
      ensures disk.applied == old(disk.applied)
      ensures book.initial == old(book.initial)
    {
      if current == cp.baseline {
        ok := WriteSnapshotIfUnchanged(cp.baseline, cp.next.value, env, cp);
        if !ok {
          return;
        }
      }
      ok := RemoveCheckpoint(env, cp, b);
    }

    method Finish(cp0: Checkpoint, b: M.Batch, current: Content, env: Env) returns (result: Option<Completion>)
      requires Valid() && Ruled() && disk.checkpoint == Some(cp0) && !cp0.stage.Fetching? && rules.batchOf(cp0) == Some(b)
      requires cp0.stage.Ready? ==> rules.ok(cp0.(stage := Synced)) && rules.batchOf(cp0.(stage := Synced)) == Some(b)
      requires disk.file == current && cp0.next.Some? && M.ValidSnapshot(cp0.next.value, r)
      modifies this
      ensures Valid()
      ensures tick >= old(tick) && (result.None? ==> Mishap(env, old(tick), tick))
      ensures disk.checkpoint.Some? ==> disk.checkpoint.value.completed == cp0.completed
      ensures book.initial == old(book.initial)
      ensures result.Some? ==>
        && Ends(result.value)
        && result.value.batch == b && result.value.applied == cp0.stage.Ready?
        && disk.applied == old(disk.applied) + (if result.value.applied then [b] else [])
        && |book.rounds| == |old(book.rounds)| + 1 && old(book.rounds) <= book.rounds
    {
      var cp, ok := cp0, true;
      if cp.stage.Ready? {
        if disk.file != cp.baseline {
          assert false;
          return None;
        }
        cp, ok := ApplyAndRecord(cp, b, env);
        if !ok {
          return None;
        }
      }
      ghost var open := book;
      ok := Persist(cp, b, current, env);
      ClosedRounds(open, b, cp.next.value);
      result := if ok then Some(Completion(b, cp.next.value, cp0.stage.Ready?)) else None;
    }

    /** A new checkpoint for the due shard on the file as it is. */
    method Begin(shard: int, dueAt: int, env: Env, config: int) returns (cp: Checkpoint, ok: bool)
      requires Valid() && Ruled() && disk.checkpoint.None? && S.ValidRegistry(r) && rules.readable(disk.file)
      modifies this`disk, this`tick
      ensures Valid()
      ensures tick >= old(tick)
      ensures disk == old(disk).(checkpoint := disk.checkpoint)
      ensures ok ==> disk.checkpoint == Some(cp) && cp.shard == shard && cp.startedAt == dueAt && cp.config == config
      ensures cp.completed == map[] && Brought(env, map[], disk.checkpoint, [], old(tick), tick, rules)
    {
      cp := Checkpoint(config, disk.file, shard, dueAt, None, map[], Fetching, None);
      if !Shape(cp) {
        BroughtNothing(env, None, tick, tick, rules, r, hash);
        return cp, false;
      }
      NewCheckpointOk(cp, rules, r, hash);
      BeginKeeps(disk, book, cp, rules);
      ok := WriteCheckpoint(cp, env);
      BroughtNothing(env, disk.checkpoint, old(tick), tick, rules, r, hash);
    }

    /** The baseline must decode to a valid snapshot; with a checkpoint it always does. */
    method ReadBaseline() returns (base: Option<M.Snapshot>)
      requires Valid() && Ruled()
      ensures base.Some? ==> Decode(disk.file) == base && M.ValidSnapshot(base.value, r) && rules.readable(disk.file)
      ensures disk.checkpoint.Some? ==> base.Some?
    {
      ReadableFile(disk.file, rules, r, hash);
      if disk.checkpoint.Some? {
        FileReadable(disk, book, disk.checkpoint.value, rules, r, hash);
      }
      base := Decode(disk.file);
      if base.Some? {
        var valid := M.ValidateSnapshot(base.value, r);
        if !valid {
          base := None;
        }
      }
    }

    /** What may keep a run from carrying the checkpoint to its end: a durable operation that
        fails; while it is still fetching also its cooldown, the source, or a batch that cannot
        be merged. */
    ghost predicate Excused(env: Env, cp: Checkpoint, from: nat, upto: nat)
      reads this`disk
    {
      if cp.stage.Fetching? then Obstructed(env, cp, rules, from, upto) || Blocks(disk) else Mishap(env, from, upto)
    }

    /** One turn of the loop: the checkpoint on disk, or a new one, carried to its end. */
    method Turn(pending: Option<Checkpoint>, shard: int, dueAt: int, env: Env, config: int) returns (result: Option<Completion>)
      requires Valid() && Ruled() && S.ValidRegistry(r) && disk.checkpoint == pending && (pending.Some? ==> pending.value.config == config)
      modifies this
      ensures Valid()
      ensures tick >= old(tick)
      ensures pending.Some? && result.None? ==> Excused(env, pending.value, old(tick), tick)
      ensures Brought(env, CompletedOf(pending), disk.checkpoint, Listed(result), old(tick), tick, rules)
      ensures pending.Some? && pending.value.stage.Fetching? && rules.stuck(pending.value) ==> result.None? && disk == old(disk)
      ensures book.initial == old(book.initial)
      ensures result.Some? ==>
        && Ends(result.value)
        && result.value.batch.shard == (if pending.Some? then pending.value.shard else shard)
        && result.value.batch.fetchedAt == (if pending.Some? then pending.value.startedAt else dueAt)
        && |book.rounds| == |old(book.rounds)| + 1 && old(book.rounds) <= book.rounds
    {
      var base := ReadBaseline();
      BroughtNothing(env, pending, tick, tick, rules, r, hash);
      if base.None? {
        return None;
      }
      var cp;
      if pending.Some? {
        cp := pending.value;
      } else {
        var ok;
        cp, ok := Begin(shard, dueAt, env, config);
        if !ok {
          return None;
        }
      }
      ghost var since := tick;
      result := Complete(cp, base.value, disk.file, env, config);
      BroughtLonger(env, cp.completed, disk.checkpoint, Listed(result), old(tick), since, tick, rules, r, hash);
    }

    /** The same after `earlier` results of the run, and whether that was the shard due. */
    method AddTurn(earlier: seq<Completion>, pending: Option<Checkpoint>, mode: Mode, due: int, dueAt: int, env: Env, config: int, ghost before: map<int, Fetched>, ghost from: nat)
      returns (results: seq<Completion>, went: bool, done: bool)
      requires Valid() && Ruled() && S.ValidRegistry(r) && disk.checkpoint == pending
      requires pending.Some? ==> pending.value.config == config && (mode.Auto? || pending.value.shard == due)
      requires from <= tick && (CompletedOf(pending) == before || CompletedOf(pending) == map[])
      requires Brought(env, before, pending, earlier, from, tick, rules)
      modifies this
      ensures Valid()
      ensures tick >= old(tick)
      ensures pending.Some? && !went ==> Excused(env, pending.value, old(tick), tick)
      ensures Brought(env, before, disk.checkpoint, results, from, tick, rules)
      ensures pending.Some? && pending.value.stage.Fetching? && rules.stuck(pending.value) ==> !went && disk == old(disk)
      ensures book.initial == old(book.initial)
      ensures !went ==> results == earlier && !done
      ensures went ==>
        && |results| == |earlier| + 1 && disk.checkpoint.None?
        && |book.rounds| == |old(book.rounds)| + 1 && old(book.rounds) <= book.rounds
        && (done || pending.Some?)
      ensures done ==> Due(results[|results| - 1], mode, due, dueAt)
    {
      ghost var since := tick;
      var result := Turn(pending, due, dueAt, env, config);
      results := earlier + (if result.Some? then [result.value] else []);
      went, done := result.Some?, false;
      BroughtOn(env, before, earlier, pending, CompletedOf(pending), disk.checkpoint, result, results, from, since, tick, rules, r, hash);
      if went {
        done := pending.None? || !mode.Auto? || (pending.value.shard == due && S.Slot(pending.value.startedAt) == S.Slot(dueAt));
      }
    }

    /** The result is the shard due, in its own slot when the run is automatic, and the disk ends
        with it. */
    ghost predicate Due(result: Completion, mode: Mode, due: int, dueAt: int)
      reads this`disk, this`book
    {
      && Ends(result)
      && result.batch.shard == due
      && (mode.Auto? ==> S.Slot(result.batch.fetchedAt) == S.Slot(dueAt))
    }

    /** The shard a run asks for; an automatic run takes the one due now. */
    function DueShard(mode: Mode, dueAt: int): Option<int> {
      match mode
      case Auto => Some(S.ShardOf(dueAt))
      case Manual(shard) => if 0 <= shard < S.SHARD_COUNT then Some(shard) else None
    }

    /** The checkpoint on disk can go no further: it is fetched and cannot be merged. */
    ghost predicate Blocks(d: Disk) {
      d.checkpoint.Some? && d.checkpoint.value.stage.Fetching? && rules.stuck(d.checkpoint.value)
    }

    /** The checkpoint on disk is one this invocation may carry on with. */
    ghost predicate Admissible(cp: Checkpoint, mode: Mode, dueAt: int, config: int) {
      cp.config == config && DueShard(mode, dueAt).Some? && (mode.Auto? || DueShard(mode, dueAt).value == cp.shard)
    }

    /** What is checked before anything is done. A checkpoint this program wrote always passes,
        unless the configuration has changed. */
    method Admit(mode: Mode, dueAt: int, config: int) returns (due: Option<int>)
      requires Valid() && Ruled()
      ensures disk.checkpoint.Some? && Admissible(disk.checkpoint.value, mode, dueAt, config) ==> due.Some?
      ensures due.Some? ==> S.ValidRegistry(r) && due == DueShard(mode, dueAt)
      ensures due.Some? && disk.checkpoint.Some? ==>
        disk.checkpoint.value.config == config && (mode.Auto? || disk.checkpoint.value.shard == due.value)
    {
      if disk.checkpoint.Some? {
        assert About(disk.checkpoint.value);
      }
      due := DueShard(mode, dueAt);
      if !S.ValidRegistry(r) || due.None? {
        return None;
      }
      if disk.checkpoint.Some? {
        var valid := ValidateCheckpoint(disk.checkpoint.value, r, hash, config);
        if !valid || (!mode.Auto? && disk.checkpoint.value.shard != due.value) {
          return None;
        }
      }
    }

    /** An old checkpoint is completed first; an automatic run then goes on to the shard due
        when it was invoked, unless that is what it has just completed. */
    method Turns(env: Env, mode: Mode, due: int, dueAt: int, config: int) returns (results: seq<Completion>, ok: bool)
      requires Valid() && Ruled() && S.ValidRegistry(r)
      requires disk.checkpoint.Some? ==> disk.checkpoint.value.config == config && (mode.Auto? || disk.checkpoint.value.shard == due)
      modifies this
      ensures Valid()
      ensures tick >= old(tick)
      ensures old(disk.checkpoint).Some? && results == [] ==> Excused(env, old(disk.checkpoint).value, old(tick), tick)
      ensures Brought(env, CompletedOf(old(disk.checkpoint)), disk.checkpoint, results, old(tick), tick, rules)
      ensures Blocks(old(disk)) ==> results == [] && !ok && disk == old(disk)
      ensures book.initial == old(book.initial)
      ensures ok ==>
        && 1 <= |results| <= 2
        && Due(results[|results| - 1], mode, due, dueAt)
        && |book.rounds| == |old(book.rounds)| + |results| && old(book.rounds) <= book.rounds
    {
      results, ok := [], false;
      var pending := disk.checkpoint;
      ghost var before, from := CompletedOf(pending), tick;
      BroughtNothing(env, pending, tick, tick, rules, r, hash);
      while true
        invariant Valid() && Ruled() && disk.checkpoint == pending
        invariant pending.Some? ==> pending.value.config == config && (mode.Auto? || pending.value.shard == due)
        invariant |results| <= 1 && (|results| == 1 ==> pending.None?) && tick >= old(tick)
        invariant results == [] ==> disk == old(disk) && tick == old(tick)
        invariant Brought(env, before, disk.checkpoint, results, from, tick, rules)
        invariant results != [] ==> !Blocks(old(disk))
        invariant book.initial == old(book.initial)
        invariant |book.rounds| == |old(book.rounds)| + |results| && old(book.rounds) <= book.rounds
        decreases if pending.Some? then 1 else 0
      {
        ghost var rounds := book.rounds;
        var went, done;
        results, went, done := AddTurn(results, pending, mode, due, dueAt, env, config, before, from);
        if went {
          RoundsOn(old(book.rounds), rounds, book.rounds);
        }
        if !went || done {
          ok := done;
          return;
        }
        pending := None;
      }
    }

    /** One invocation. A successful automatic one has completed the shard due when it was
        invoked, in the slot it was invoked in, even after recovering an older one. A ready or
        synced checkpoint is carried to its end unless a durable operation fails again. One that
        is still fetching is carried to its end unless a durable operation fails, its cooldown
        has not passed, the source does not serve it, or its batch cannot be merged. One that is
        fetched and cannot be merged stops every invocation, for every shard, and stays. */
    method Run(env: Env, mode: Mode, config: int) returns (results: seq<Completion>, ok: bool)
      requires Valid() && Ruled()
      modifies this
      ensures Valid()
      ensures old(disk.checkpoint).Some? && Admissible(old(disk.checkpoint).value, mode, env.clock(old(tick)), config) && results == []
        ==> Excused(env, old(disk.checkpoint).value, old(tick), tick)
      ensures Brought(env, CompletedOf(old(disk.checkpoint)), disk.checkpoint, results, old(tick), tick, rules)
      ensures Blocks(old(disk)) ==> results == [] && !ok && disk == old(disk)
      ensures book.initial == old(book.initial)
      ensures ok ==>
        && 1 <= |results| <= 2
        && Ends(results[|results| - 1])
        && |book.rounds| == |old(book.rounds)| + |results| && old(book.rounds) <= book.rounds
        && Some(results[|results| - 1].batch.shard) == DueShard(mode, env.clock(old(tick)))
        && (mode.Auto? ==> S.Slot(results[|results| - 1].batch.fetchedAt) == S.Slot(env.clock(old(tick))))
    {
      var dueAt := Now(env);
      var due := Admit(mode, dueAt, config);
      BroughtNothing(env, disk.checkpoint, old(tick), tick, rules, r, hash);
      if due.None? {
        return [], false;
      }
      ghost var before, since := CompletedOf(disk.checkpoint), tick;
      results, ok := Turns(env, mode, due.value, dueAt, config);
      BroughtLonger(env, before, disk.checkpoint, results, old(tick), since, tick, rules, r, hash);
    }

    /** Any number of invocations, each in its own surroundings and stopped anywhere. */
    method Live(runs: seq<(Env, Mode, int)>)
      requires Valid() && Ruled()
      modifies this
      ensures Valid()
      ensures book.initial == old(book.initial)
    {
      for i := 0 to |runs|
        invariant Valid() && book.initial == old(book.initial)
      {
        var results, ok := Run(runs[i].0, runs[i].1, runs[i].2);
      }
    }
  }
}
