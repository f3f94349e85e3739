/** Rolling snapshots: validation, and the merge of one shard's batch into a complete baseline.

    Registry keys, source ids and handles are numbered by their rank in string order. `ok`
    stands for the rules that look at one account or post alone (text, URL, media, language,
    metrics); the rest of the content is in `profile` and `body`. */
module SnapshotMerge {
  import opened Basics
  import O = Ordering
  import S = Shards

  /** Go's zero time: no time was given. */
  const NO_TIME: int := S.ZERO_TIME

  datatype Account = Account(key: int, user: int, handle: int, category: int, ok: bool, profile: int)

  /** `handle` is the handle in the post's source URL. */
  datatype Post = Post(key: int, id: int, createdAt: int, handle: int, ok: bool, body: int)

  datatype Snapshot = Snapshot(fetchedAt: int, accounts: seq<Account>, posts: seq<Post>)

  datatype Batch = Batch(fetchedAt: int, shard: int, accounts: seq<Account>, posts: seq<Post>, exhausted: seq<int>)

  function Keys(accounts: seq<Account>): set<int> {
    set a | a in accounts :: a.key
  }

  // ---------------------------------------------------------------------------
  // Validation
  // ---------------------------------------------------------------------------

  ghost predicate Configured(r: S.Registry, a: Account) {
    exists c :: c in r.accounts && c.key == a.key && c.enabled && c.category == a.category
  }

  /** Configured, well formed, and with a key and a user no earlier account has. */
  ghost predicate AccountOk(accounts: seq<Account>, r: S.Registry, i: int)
    requires 0 <= i < |accounts|
  {
    && Configured(r, accounts[i])
    && accounts[i].ok
    && (forall j :: 0 <= j < i ==> accounts[j].key != accounts[i].key)
    && (forall j :: 0 <= j < i ==> accounts[j].user != accounts[i].user)
  }

  ghost predicate AccountsOk(accounts: seq<Account>, r: S.Registry) {
    forall i :: 0 <= i < |accounts| ==> AccountOk(accounts, r, i)
  }

  ghost predicate OwnedBy(accounts: seq<Account>, p: Post) {
    exists a :: a in accounts && a.key == p.key && a.handle == p.handle
  }

  /** Of a listed account, with its handle, well formed, and with an id no earlier post has. */
  ghost predicate PostOk(posts: seq<Post>, accounts: seq<Account>, i: int)
    requires 0 <= i < |posts|
  {
    && OwnedBy(accounts, posts[i])
    && posts[i].ok
    && (forall j :: 0 <= j < i ==> posts[j].id != posts[i].id)
  }

  ghost predicate PostsOk(posts: seq<Post>, accounts: seq<Account>) {
    forall i :: 0 <= i < |posts| ==> PostOk(posts, accounts, i)
  }

  lemma AccountsDistinct(accounts: seq<Account>, r: S.Registry)
    requires AccountsOk(accounts, r)
    ensures forall i, j :: 0 <= i < j < |accounts| ==> accounts[i].key != accounts[j].key
    ensures forall a, b :: a in accounts && b in accounts && a.key == b.key ==> a == b
  {
    forall i, j | 0 <= i < j < |accounts| ensures accounts[i].key != accounts[j].key {
      assert AccountOk(accounts, r, j);
    }
  }

  lemma PostsDistinct(posts: seq<Post>, accounts: seq<Account>)
    requires PostsOk(posts, accounts)
    ensures forall i, j :: 0 <= i < j < |posts| ==> posts[i].id != posts[j].id
    ensures forall p :: p in posts ==> OwnedBy(accounts, p)
  {
    forall i, j | 0 <= i < j < |posts| ensures posts[i].id != posts[j].id {
      assert PostOk(posts, accounts, j);
    }
    forall p | p in posts ensures OwnedBy(accounts, p) {
      var i :| 0 <= i < |posts| && posts[i] == p;
      assert PostOk(posts, accounts, i);
    }
  }

  function CountOf(posts: seq<Post>, key: int): nat {
    if posts == [] then 0
    else CountOf(posts[..|posts| - 1], key) + (if posts[|posts| - 1].key == key then 1 else 0)
  }

  ghost predicate ValidSnapshot(s: Snapshot, r: S.Registry) {
    && S.ValidRegistry(r)
    && s.fetchedAt != NO_TIME
    && AccountsOk(s.accounts, r)
    && Keys(s.accounts) == S.EnabledKeys(r)
    && PostsOk(s.posts, s.accounts)
    && (forall i :: 0 <= i < |r.accounts| && r.accounts[i].enabled ==> CountOf(s.posts, r.accounts[i].key) <= r.accounts[i].maxPosts)
  }

  method AccountByKey(r: S.Registry, key: int) returns (c: Option<S.Source>)
    requires S.ValidRegistry(r)
    ensures c.Some? ==> c.value in r.accounts && c.value.key == key
    ensures c.Some? ==> forall d :: d in r.accounts && d.key == key ==> d == c.value
    ensures c.None? ==> forall d :: d in r.accounts ==> d.key != key
  {
    for i := 0 to |r.accounts|
      invariant forall j :: 0 <= j < i ==> r.accounts[j].key != key
    {
      if r.accounts[i].key == key {
        return Some(r.accounts[i]);
      }
    }
    c := None;
  }

  /** The accounts half: keys and users seen so far, in order. */
  method ValidateAccounts(accounts: seq<Account>, r: S.Registry) returns (ok: bool, byKey: map<int, Account>)
    requires S.ValidRegistry(r)
    ensures ok <==> AccountsOk(accounts, r)
    ensures ok ==> byKey.Keys == Keys(accounts)
    ensures ok ==> forall i :: 0 <= i < |accounts| ==> accounts[i].key in byKey && byKey[accounts[i].key] == accounts[i]
  {
    byKey := map[];
    var users: set<int> := {};
    for i := 0 to |accounts|
      invariant forall j :: 0 <= j < i ==> AccountOk(accounts, r, j)
      invariant forall k :: k in byKey <==> exists j :: 0 <= j < i && accounts[j].key == k
      invariant forall j :: 0 <= j < i ==> accounts[j].key in byKey && byKey[accounts[j].key] == accounts[j]
      invariant forall u :: u in users <==> exists j :: 0 <= j < i && accounts[j].user == u
    {
      var a := accounts[i];
      var c := AccountByKey(r, a.key);
      if a.key in byKey || c.None? || !c.value.enabled || !a.ok || a.user in users || a.category != c.value.category {
        assert !AccountOk(accounts, r, i);
        return false, byKey;
      }
      assert Configured(r, a);
      users := users + {a.user};
      byKey := byKey[a.key := a];
    }
    forall k ensures k in byKey.Keys <==> k in Keys(accounts) { }
    ok := true;
  }

  /** The posts half: ids seen so far and the number of posts per account. */
  method ValidatePosts(posts: seq<Post>, accounts: seq<Account>, byKey: map<int, Account>) returns (ok: bool, counts: map<int, nat>)
    requires byKey.Keys == Keys(accounts)
    requires forall i, j :: 0 <= i < j < |accounts| ==> accounts[i].key != accounts[j].key
    requires forall i :: 0 <= i < |accounts| ==> accounts[i].key in byKey && byKey[accounts[i].key] == accounts[i]
    ensures ok <==> PostsOk(posts, accounts)
    ensures ok ==> forall k :: (if k in counts then counts[k] else 0) == CountOf(posts, k)
  {
    counts := map[];
    var ids: set<int> := {};
    for i := 0 to |posts|
      invariant forall j :: 0 <= j < i ==> PostOk(posts, accounts, j)
      invariant forall id :: id in ids <==> exists j :: 0 <= j < i && posts[j].id == id
      invariant forall k :: (if k in counts then counts[k] else 0) == CountOf(posts[..i], k)
    {
      var p := posts[i];
      if p.key !in byKey || p.id in ids || byKey[p.key].handle != p.handle || !p.ok {
        assert !PostOk(posts, accounts, i);
        return false, counts;
      }
      assert byKey[p.key] in accounts;
      assert OwnedBy(accounts, p);
      assert posts[..i + 1] == posts[..i] + [p];
      assert posts[..i + 1][..i] == posts[..i];
      ids := ids + {p.id};
      counts := counts[p.key := (if p.key in counts then counts[p.key] else 0) + 1];
    }
    assert posts[..|posts|] == posts;
    ok := true;
  }

  /** The validator accepts exactly the valid snapshots. */
  method ValidateSnapshot(s: Snapshot, r: S.Registry) returns (ok: bool)
    ensures ok <==> ValidSnapshot(s, r)
  {
    if !S.ValidRegistry(r) || s.fetchedAt == NO_TIME {
      return false;
    }
    var accountsOk, byKey := ValidateAccounts(s.accounts, r);
    if !accountsOk {
      return false;
    }
    AccountsDistinct(s.accounts, r);
    if byKey.Keys != S.EnabledKeys(r) {
      return false;
    }
    var postsOk, counts := ValidatePosts(s.posts, s.accounts, byKey);
    if !postsOk {
      return false;
    }
    for i := 0 to |r.accounts|
      invariant forall j :: 0 <= j < i && r.accounts[j].enabled ==> CountOf(s.posts, r.accounts[j].key) <= r.accounts[j].maxPosts
    {
      var a := r.accounts[i];
      if a.enabled && (if a.key in counts then counts[a.key] else 0) > a.maxPosts {
        return false;
      }
    }
    ok := true;
  }

  // ---------------------------------------------------------------------------
  // Batches
  // ---------------------------------------------------------------------------

  /** The registry cut down to one shard. */
  ghost function Subset(r: S.Registry, hash: int -> int, shard: int): S.Registry
    requires S.ValidRegistry(r)
  {
    S.SourcesKeyed(r, S.InShard(r, hash, shard));
    S.Registry(r.defaultMaxPosts, O.SortDesc(S.InShard(r, hash, shard), S.ByKey()))
  }

  function Fragment(b: Batch): Snapshot {
    Snapshot(b.fetchedAt, b.accounts, b.posts)
  }

  ghost predicate FragmentOk(b: Batch, r: S.Registry, hash: int -> int)
    requires S.ValidRegistry(r)
  {
    if S.Members(S.EnabledKeys(r), hash, b.shard) == {} then b.accounts == [] && b.posts == []
    else ValidSnapshot(Fragment(b), Subset(r, hash, b.shard))
  }

  /** A batch holds exactly its shard's accounts and is a valid snapshot of them. */
  ghost predicate ValidBatch(b: Batch, r: S.Registry, hash: int -> int) {
    && S.ValidRegistry(r)
    && b.fetchedAt != NO_TIME
    && 0 <= b.shard < S.SHARD_COUNT
    && FragmentOk(b, r, hash)
    && Distinct(b.exhausted)
    && (forall k :: k in b.exhausted ==> k in S.Members(S.EnabledKeys(r), hash, b.shard))
  }

  // ---------------------------------------------------------------------------
  // What a merge means
  // ---------------------------------------------------------------------------

  /** Newest first within an account, accounts in key order. */
  function ByPost(): Post -> O.Key {
    (p: Post) => O.Key(-p.key, p.createdAt, p.id, 0)
  }

  function ByAccount(): Account -> O.Key {
    (a: Account) => O.Key(-a.key, 0, 0, 0)
  }

  function Of(posts: set<Post>, key: int): set<Post> {
    set p | p in posts && p.key == key
  }

  predicate IdUnique(posts: set<Post>) {
    forall p, q :: p in posts && q in posts && p.key == q.key && p.id == q.id ==> p == q
  }

  ghost predicate Same(p: Post, q: Post) {
    p.key == q.key && p.id == q.id
  }

  /** New representations replace old ones by source identity; absence removes nothing. */
  ghost function Override(base: set<Post>, upd: set<Post>): set<Post> {
    upd + set p | p in base && forall q :: q in upd ==> !Same(p, q)
  }

  ghost function OverrideAccounts(base: set<Account>, upd: set<Account>): set<Account> {
    upd + set a | a in base && forall b :: b in upd ==> a.key != b.key
  }

  /** What one account keeps: the newest `max` if it is selected, everything otherwise. */
  ghost function Kept(posts: set<Post>, selected: bool, max: int): set<Post>
    requires IdUnique(posts) && max >= 0
  {
    if selected then Elems(TopPosts(posts, max)) else posts
  }

  ghost function TopPosts(posts: set<Post>, max: int): seq<Post>
    requires IdUnique(posts) && max >= 0
  {
    PostsKeyed(posts);
    O.Top(posts, ByPost(), max)
  }

  lemma PostsKeyed(posts: set<Post>)
    requires IdUnique(posts)
    ensures O.Keyed(posts, ByPost())
  { }

  ghost function MergedPosts(over: set<Post>, selected: set<int>, sources: set<S.Source>): set<Post>
    requires IdUnique(over) && forall c :: c in sources ==> c.maxPosts >= 0
  {
    set c, p | c in sources && p in Kept(Of(over, c.key), c.key in selected, c.maxPosts) :: p
  }

  lemma KeptOf(posts: set<Post>, selected: bool, max: int)
    requires IdUnique(posts) && max >= 0
    ensures Kept(posts, selected, max) <= posts
  {
    PostsKeyed(posts);
    O.SortDescSpec(posts, ByPost());
  }

  lemma OverrideUnique(base: set<Post>, upd: set<Post>)
    requires IdUnique(base) && IdUnique(upd)
    ensures IdUnique(Override(base, upd))
  { }

  lemma MergedOf(over: set<Post>, selected: set<int>, sources: set<S.Source>, c: S.Source)
    requires IdUnique(over) && c in sources
    requires forall d :: d in sources ==> d.maxPosts >= 0
    requires forall d, e :: d in sources && e in sources && d.key == e.key ==> d == e
    ensures Of(MergedPosts(over, selected, sources), c.key) == Kept(Of(over, c.key), c.key in selected, c.maxPosts)
    ensures MergedPosts(over, selected, sources) <= over
  {
    forall d | d in sources ensures Kept(Of(over, d.key), d.key in selected, d.maxPosts) <= Of(over, d.key) {
      KeptOf(Of(over, d.key), d.key in selected, d.maxPosts);
    }
    forall p ensures p in Of(MergedPosts(over, selected, sources), c.key) <==> p in Kept(Of(over, c.key), c.key in selected, c.maxPosts) { }
  }

  lemma SnapshotUnique(s: Snapshot, r: S.Registry)
    requires ValidSnapshot(s, r)
    ensures IdUnique(Elems(s.posts))
    ensures O.Keyed(Elems(s.accounts), ByAccount())
    ensures forall p :: p in s.posts ==> p.key in Keys(s.accounts)
    ensures |Elems(s.posts)| == |s.posts|
  {
    PostsDistinct(s.posts, s.accounts);
    AccountsDistinct(s.accounts, r);
    NoRepeatSize(s.posts);
  }

  lemma {:induction false} NoRepeatSize(posts: seq<Post>)
    requires forall i, j :: 0 <= i < j < |posts| ==> posts[i].id != posts[j].id
    ensures |Elems(posts)| == |posts|
  {
    if posts != [] {
      var n := |posts| - 1;
      NoRepeatSize(posts[..n]);
      assert posts == posts[..n] + [posts[n]];
      assert Elems(posts) == Elems(posts[..n]) + {posts[n]};
    }
  }

  /** What validation gives a batch, with or without accounts in its shard. */
  lemma BatchFacts(b: Batch, r: S.Registry, hash: int -> int)
    requires ValidBatch(b, r, hash)
    ensures IdUnique(Elems(b.posts))
    ensures O.Keyed(Elems(b.accounts), ByAccount())
    ensures Keys(b.accounts) == S.Members(S.EnabledKeys(r), hash, b.shard)
    ensures forall p :: p in b.posts ==> p.key in Keys(b.accounts)
  {
    if S.Members(S.EnabledKeys(r), hash, b.shard) != {} {
      SnapshotUnique(Fragment(b), Subset(r, hash, b.shard));
      SubsetKeys(r, hash, b.shard);
    }
  }

  lemma SubsetKeys(r: S.Registry, hash: int -> int, shard: int)
    requires S.ValidRegistry(r)
    ensures S.EnabledKeys(Subset(r, hash, shard)) == S.Members(S.EnabledKeys(r), hash, shard)
  {
    var selected := Subset(r, hash, shard).accounts;
    S.SourcesKeyed(r, S.InShard(r, hash, shard));
    O.SortDescSpec(S.InShard(r, hash, shard), S.ByKey());
    S.SelectedKeys(r, hash, shard, selected);
    forall k ensures k in S.EnabledKeys(Subset(r, hash, shard)) <==> k in (set a | a in selected :: a.key) { }
  }

  ghost predicate SameUsers(base: seq<Account>, upd: seq<Account>) {
    forall a, b :: a in base && b in upd && a.key == b.key ==> a.user == b.user
  }

  lemma AccountsKeyed(base: set<Account>, upd: set<Account>)
    requires O.Keyed(base, ByAccount()) && O.Keyed(upd, ByAccount())
    ensures O.Keyed(OverrideAccounts(base, upd), ByAccount())
  { }

  ghost function MergedAccounts(baseline: Snapshot, batch: Batch, r: S.Registry, hash: int -> int): seq<Account>
    requires ValidSnapshot(baseline, r) && ValidBatch(batch, r, hash)
  {
    SnapshotUnique(baseline, r);
    BatchFacts(batch, r, hash);
    AccountsKeyed(Elems(baseline.accounts), Elems(batch.accounts));
    O.SortDesc(OverrideAccounts(Elems(baseline.accounts), Elems(batch.accounts)), ByAccount())
  }

  ghost function KeptPosts(baseline: Snapshot, batch: Batch, r: S.Registry, hash: int -> int): (kept: set<Post>)
    requires ValidSnapshot(baseline, r) && ValidBatch(batch, r, hash)
    ensures IdUnique(kept)
  {
    SnapshotUnique(baseline, r);
    BatchFacts(batch, r, hash);
    OverrideUnique(Elems(baseline.posts), Elems(batch.posts));
    var over := Override(Elems(baseline.posts), Elems(batch.posts));
    MergedWithin(over, Keys(batch.accounts), S.Enabled(r));
    MergedPosts(over, Keys(batch.accounts), S.Enabled(r))
  }

  lemma MergedWithin(over: set<Post>, selected: set<int>, sources: set<S.Source>)
    requires IdUnique(over) && forall c :: c in sources ==> c.maxPosts >= 0
    ensures MergedPosts(over, selected, sources) <= over
    ensures forall p :: p in MergedPosts(over, selected, sources) ==> p.key in set c | c in sources :: c.key
  {
    forall d | d in sources ensures Kept(Of(over, d.key), d.key in selected, d.maxPosts) <= Of(over, d.key) {
      KeptOf(Of(over, d.key), d.key in selected, d.maxPosts);
    }
  }

  ghost function Merged(baseline: Snapshot, batch: Batch, r: S.Registry, hash: int -> int, now: int): Snapshot
    requires ValidSnapshot(baseline, r) && ValidBatch(batch, r, hash)
  {
    PostsKeyed(KeptPosts(baseline, batch, r, hash));
    Snapshot(
      if now == NO_TIME then batch.fetchedAt else now,
      MergedAccounts(baseline, batch, r, hash),
      O.SortDesc(KeptPosts(baseline, batch, r, hash), ByPost()))
  }

  /** The outcome of a merge: valid inputs, unchanged identities and a valid result. */
  ghost function MergeResult(baseline: Snapshot, batch: Batch, r: S.Registry, hash: int -> int, now: int): Option<Snapshot> {
    if ValidSnapshot(baseline, r) && ValidBatch(batch, r, hash) && SameUsers(baseline.accounts, batch.accounts)
       && ValidSnapshot(Merged(baseline, batch, r, hash, now), r)
    then Some(Merged(baseline, batch, r, hash, now))
    else None
  }

  // ---------------------------------------------------------------------------
  // The laws of merging
  // ---------------------------------------------------------------------------

  lemma MergedPostsOf(baseline: Snapshot, batch: Batch, r: S.Registry, hash: int -> int, now: int)
    requires ValidSnapshot(baseline, r) && ValidBatch(batch, r, hash)
    ensures Elems(Merged(baseline, batch, r, hash, now).posts) == KeptPosts(baseline, batch, r, hash)
    ensures Elems(Merged(baseline, batch, r, hash, now).accounts) == OverrideAccounts(Elems(baseline.accounts), Elems(batch.accounts))
  {
    PostsKeyed(KeptPosts(baseline, batch, r, hash));
    SortedElems(KeptPosts(baseline, batch, r, hash), ByPost());
    SnapshotUnique(baseline, r);
    BatchFacts(batch, r, hash);
    AccountsKeyed(Elems(baseline.accounts), Elems(batch.accounts));
    SortedElems(OverrideAccounts(Elems(baseline.accounts), Elems(batch.accounts)), ByAccount());
  }

  lemma {:induction false} SortedElems<T>(s: set<T>, key: T -> O.Key)
    requires O.Keyed(s, key)
    ensures Elems(O.SortDesc(s, key)) == s
  {
    O.SortDescSpec(s, key);
    forall x ensures x in Elems(O.SortDesc(s, key)) <==> x in s { }
  }

  lemma OfOverride(base: set<Post>, upd: set<Post>, key: int)
    ensures Of(Override(base, upd), key) == Override(Of(base, key), Of(upd, key))
  { }

  lemma EnabledUnique(r: S.Registry, c: S.Source, d: S.Source)
    requires S.ValidRegistry(r) && c in S.Enabled(r) && d in S.Enabled(r) && c.key == d.key
    ensures c == d
  { }

  lemma KeptOfAccount(baseline: Snapshot, batch: Batch, r: S.Registry, hash: int -> int, c: S.Source)
    requires ValidSnapshot(baseline, r) && ValidBatch(batch, r, hash) && c in S.Enabled(r)
    ensures var over := Override(Of(Elems(baseline.posts), c.key), Of(Elems(batch.posts), c.key));
      && IdUnique(over)
      && Of(KeptPosts(baseline, batch, r, hash), c.key) == Kept(over, c.key in Keys(batch.accounts), c.maxPosts)
  {
    SnapshotUnique(baseline, r);
    BatchFacts(batch, r, hash);
    var base, upd := Elems(baseline.posts), Elems(batch.posts);
    OverrideUnique(base, upd);
    OfOverride(base, upd, c.key);
    forall d, e | d in S.Enabled(r) && e in S.Enabled(r) && d.key == e.key ensures d == e {
      EnabledUnique(r, d, e);
    }
    MergedOf(Override(base, upd), Keys(batch.accounts), S.Enabled(r), c);
  }

  lemma NoUpdate(base: set<Post>)
    ensures Override(base, {}) == base
  { }

  /** A successful merge keeps, for each account of the shard, exactly the newest `maxPosts`
      of baseline overridden by batch, and every other account's posts and profile as they
      were; posts are listed in snapshot order. */
  lemma MergeKeepsNewest(baseline: Snapshot, batch: Batch, r: S.Registry, hash: int -> int, now: int, c: S.Source)
    requires MergeResult(baseline, batch, r, hash, now).Some? && c in S.Enabled(r)
    ensures var next := MergeResult(baseline, batch, r, hash, now).value;
      var over := Override(Of(Elems(baseline.posts), c.key), Of(Elems(batch.posts), c.key));
      && IdUnique(over)
      && next.fetchedAt == (if now == S.ZERO_TIME then batch.fetchedAt else now)
      && O.Descending(next.posts, ByPost()) && |next.posts| == |Elems(next.posts)|
      && (if c.key in S.Members(S.EnabledKeys(r), hash, batch.shard)
          then
            && Of(Elems(next.posts), c.key) == Elems(TopPosts(over, c.maxPosts))
            && (forall a :: a in next.accounts && a.key == c.key <==> a in batch.accounts && a.key == c.key)
          else
            && Of(Elems(next.posts), c.key) == Of(Elems(baseline.posts), c.key)
            && (forall a :: a in next.accounts && a.key == c.key <==> a in baseline.accounts && a.key == c.key))
  {
    var next := MergeResult(baseline, batch, r, hash, now).value;
    BatchFacts(batch, r, hash);
    KeptOfAccount(baseline, batch, r, hash, c);
    MergedPostsOf(baseline, batch, r, hash, now);
    var kept := KeptPosts(baseline, batch, r, hash);
    PostsKeyed(kept);
    O.SortDescSpec(kept, ByPost());
    AccountOfKey(Elems(baseline.accounts), Elems(batch.accounts), c.key);
    assert forall a :: a in next.accounts <==> a in Elems(next.accounts);
    if c.key !in Keys(batch.accounts) {
      assert Of(Elems(batch.posts), c.key) == {};
      NoUpdate(Of(Elems(baseline.posts), c.key));
    }
  }

  /** The order of a merged snapshot: accounts by key; posts by account, newest first, the
      greater id first among those of one time. */
  lemma MergedOrder(baseline: Snapshot, batch: Batch, r: S.Registry, hash: int -> int, now: int)
    requires MergeResult(baseline, batch, r, hash, now).Some?
    ensures InOrder(MergeResult(baseline, batch, r, hash, now).value)
  {
    var accounts, posts := MergedSets(baseline, batch, r, hash, now);
    PostOrder(posts);
    AccountOrder(accounts);
  }

  ghost predicate InOrder(s: Snapshot) {
    && (forall i, j :: 0 <= i < j < |s.accounts| ==> s.accounts[i].key < s.accounts[j].key)
    && (forall i, j :: 0 <= i < j < |s.posts| ==> s.posts[i].key < s.posts[j].key || Newer(s.posts[i], s.posts[j]))
  }

  lemma MergedSets(baseline: Snapshot, batch: Batch, r: S.Registry, hash: int -> int, now: int) returns (accounts: set<Account>, posts: set<Post>)
    requires MergeResult(baseline, batch, r, hash, now).Some?
    ensures O.Keyed(accounts, ByAccount()) && MergeResult(baseline, batch, r, hash, now).value.accounts == O.SortDesc(accounts, ByAccount())
    ensures O.Keyed(posts, ByPost()) && MergeResult(baseline, batch, r, hash, now).value.posts == O.SortDesc(posts, ByPost())
  {
    SnapshotUnique(baseline, r);
    BatchFacts(batch, r, hash);
    AccountsKeyed(Elems(baseline.accounts), Elems(batch.accounts));
    PostsKeyed(KeptPosts(baseline, batch, r, hash));
    accounts, posts := OverrideAccounts(Elems(baseline.accounts), Elems(batch.accounts)), KeptPosts(baseline, batch, r, hash);
  }

  lemma PostOrder(posts: set<Post>)
    requires O.Keyed(posts, ByPost())
    ensures var listed := O.SortDesc(posts, ByPost());
      forall i, j :: 0 <= i < j < |listed| ==> listed[i].key < listed[j].key || Newer(listed[i], listed[j])
  {
    O.SortDescSpec(posts, ByPost());
    var listed := O.SortDesc(posts, ByPost());
    forall i, j | 0 <= i < j < |listed| ensures listed[i].key < listed[j].key || Newer(listed[i], listed[j]) {
      assert O.Less(ByPost()(listed[j]), ByPost()(listed[i]));
    }
  }

  lemma AccountOrder(accounts: set<Account>)
    requires O.Keyed(accounts, ByAccount())
    ensures var listed := O.SortDesc(accounts, ByAccount());
      forall i, j :: 0 <= i < j < |listed| ==> listed[i].key < listed[j].key
  {
    O.SortDescSpec(accounts, ByAccount());
    var listed := O.SortDesc(accounts, ByAccount());
    forall i, j | 0 <= i < j < |listed| ensures listed[i].key < listed[j].key {
      assert O.Less(ByAccount()(listed[j]), ByAccount()(listed[i]));
    }
  }

  /** Every post that an account of the shard loses in a merge is older than every post it
      keeps. */
  lemma LostAreOlder(baseline: Snapshot, batch: Batch, r: S.Registry, hash: int -> int, now: int, c: S.Source, p: Post, q: Post)
    requires MergeResult(baseline, batch, r, hash, now).Some?
    requires c in S.Enabled(r) && c.key in S.Members(S.EnabledKeys(r), hash, batch.shard) && p.key == q.key == c.key
    requires p in MergeResult(baseline, batch, r, hash, now).value.posts
    requires Lost(baseline, batch, MergeResult(baseline, batch, r, hash, now).value, q)
    ensures Newer(p, q)
  {
    MergeKeepsNewest(baseline, batch, r, hash, now, c);
    var next := MergeResult(baseline, batch, r, hash, now).value;
    var over := Override(Of(Elems(baseline.posts), c.key), Of(Elems(batch.posts), c.key));
    assert p in Of(Elems(next.posts), c.key) && q !in Of(Elems(next.posts), c.key);
    LostWasOffered(baseline, batch, next, q);
    TopIsHighest(over, c.maxPosts, p, q);
  }

  lemma LostWasOffered(baseline: Snapshot, batch: Batch, next: Snapshot, q: Post)
    requires Lost(baseline, batch, next, q)
    ensures q in Override(Of(Elems(baseline.posts), q.key), Of(Elems(batch.posts), q.key))
  {
    if q in batch.posts {
      assert q in Of(Elems(batch.posts), q.key);
    } else {
      assert q in Of(Elems(baseline.posts), q.key);
    }
  }

  /** Two posts of one account: the newer one, or the one with the greater id of one time. */
  predicate Newer(p: Post, q: Post) {
    p.key == q.key && (p.createdAt > q.createdAt || (p.createdAt == q.createdAt && p.id > q.id))
  }

  /** A post of the batch, or of the baseline and not replaced by one, that the merge drops. */
  ghost predicate Lost(baseline: Snapshot, batch: Batch, next: Snapshot, q: Post) {
    && q !in next.posts
    && (q in batch.posts || (q in baseline.posts && forall u :: u in batch.posts && u.key == q.key ==> u.id != q.id))
  }

  lemma AccountOfKey(base: set<Account>, upd: set<Account>, key: int)
    ensures (exists b :: b in upd && b.key == key) ==> forall a :: a in OverrideAccounts(base, upd) && a.key == key <==> a in upd && a.key == key
    ensures !(exists b :: b in upd && b.key == key) ==> forall a :: a in OverrideAccounts(base, upd) && a.key == key <==> a in base && a.key == key
  { }

  // ---------------------------------------------------------------------------
  // When a merge succeeds
  // ---------------------------------------------------------------------------

  /** Every kept post of an account in the batch has the account's current handle in its URL. */
  ghost predicate HandlesCurrent(baseline: Snapshot, batch: Batch, r: S.Registry, hash: int -> int)
    requires ValidSnapshot(baseline, r) && ValidBatch(batch, r, hash)
  {
    forall p, a :: p in KeptPosts(baseline, batch, r, hash) && a in batch.accounts && a.key == p.key ==> p.handle == a.handle
  }

  /** No two accounts keep posts with the same source id. */
  ghost predicate IdsApart(posts: set<Post>) {
    forall p, q :: p in posts && q in posts && p.id == q.id ==> p.key == q.key
  }

  /** A merge of valid inputs succeeds if and only if no account changed its source user, no
      source id is kept by two accounts, and no older post is kept under a former handle. */
  lemma MergeSucceedsIff(baseline: Snapshot, batch: Batch, r: S.Registry, hash: int -> int, now: int)
    requires ValidSnapshot(baseline, r) && ValidBatch(batch, r, hash)
    ensures MergeResult(baseline, batch, r, hash, now).Some? <==>
      && SameUsers(baseline.accounts, batch.accounts)
      && HandlesCurrent(baseline, batch, r, hash)
      && IdsApart(KeptPosts(baseline, batch, r, hash))
  {
    MergedPostsOf(baseline, batch, r, hash, now);
    if MergeResult(baseline, batch, r, hash, now).Some? {
      MergedIsCurrent(baseline, batch, r, hash, now);
    } else if SameUsers(baseline.accounts, batch.accounts) && HandlesCurrent(baseline, batch, r, hash) && IdsApart(KeptPosts(baseline, batch, r, hash)) {
      MergedIsValid(baseline, batch, r, hash, now);
    }
  }

  lemma ListedApart(posts: seq<Post>, accounts: seq<Account>)
    requires PostsOk(posts, accounts)
    ensures IdsApart(Elems(posts))
  {
    PostsDistinct(posts, accounts);
    forall p, q | p in Elems(posts) && q in Elems(posts) && p.id == q.id ensures p.key == q.key {
      var i :| 0 <= i < |posts| && posts[i] == p;
      var j :| 0 <= j < |posts| && posts[j] == q;
    }
  }

  lemma ListedHandles(posts: seq<Post>, accounts: seq<Account>, r: S.Registry)
    requires PostsOk(posts, accounts) && AccountsOk(accounts, r)
    ensures forall p, a :: p in posts && a in accounts && a.key == p.key ==> p.handle == a.handle
  {
    AccountsDistinct(accounts, r);
    forall p, a | p in posts && a in accounts && a.key == p.key ensures p.handle == a.handle {
      PostMember(posts, accounts, p);
      var b :| b in accounts && b.key == p.key && b.handle == p.handle;
    }
  }

  lemma MergedIsCurrent(baseline: Snapshot, batch: Batch, r: S.Registry, hash: int -> int, now: int)
    requires ValidSnapshot(baseline, r) && ValidBatch(batch, r, hash) && ValidSnapshot(Merged(baseline, batch, r, hash, now), r)
    ensures HandlesCurrent(baseline, batch, r, hash) && IdsApart(KeptPosts(baseline, batch, r, hash))
  {
    var next := Merged(baseline, batch, r, hash, now);
    MergedPostsOf(baseline, batch, r, hash, now);
    ListedApart(next.posts, next.accounts);
    ListedHandles(next.posts, next.accounts, r);
    forall p, a | p in KeptPosts(baseline, batch, r, hash) && a in batch.accounts && a.key == p.key ensures p.handle == a.handle {
      assert p in Elems(next.posts) && a in Elems(next.accounts);
    }
  }

  lemma MergedIsValid(baseline: Snapshot, batch: Batch, r: S.Registry, hash: int -> int, now: int)
    requires ValidSnapshot(baseline, r) && ValidBatch(batch, r, hash)
    requires SameUsers(baseline.accounts, batch.accounts) && HandlesCurrent(baseline, batch, r, hash) && IdsApart(KeptPosts(baseline, batch, r, hash))
    ensures ValidSnapshot(Merged(baseline, batch, r, hash, now), r)
  {
    MergedAccountsOk(baseline, batch, r, hash);
    MergedPostsOk(baseline, batch, r, hash, now);
    MergedCounts(baseline, batch, r, hash, now);
  }

  /** Where a merged account comes from: it is well formed, and the baseline lists its key with
      the same user. */
  lemma MergedAccountFrom(baseline: Snapshot, batch: Batch, r: S.Registry, hash: int -> int, a: Account) returns (b: Account)
    requires ValidSnapshot(baseline, r) && ValidBatch(batch, r, hash) && SameUsers(baseline.accounts, batch.accounts)
    requires a in OverrideAccounts(Elems(baseline.accounts), Elems(batch.accounts))
    ensures Configured(r, a) && a.ok
    ensures b in baseline.accounts && b.key == a.key && b.user == a.user
  {
    if a in batch.accounts {
      BatchAccountOk(batch, r, hash, a);
      BatchFacts(batch, r, hash);
      assert a.key in Keys(baseline.accounts);
      b :| b in baseline.accounts && b.key == a.key;
    } else {
      AccountMember(baseline.accounts, r, a);
      b := a;
    }
  }

  lemma AccountMember(accounts: seq<Account>, r: S.Registry, a: Account)
    requires AccountsOk(accounts, r) && a in accounts
    ensures Configured(r, a) && a.ok
  {
    var i :| 0 <= i < |accounts| && accounts[i] == a;
    assert AccountOk(accounts, r, i);
  }

  lemma BatchAccountOk(batch: Batch, r: S.Registry, hash: int -> int, a: Account)
    requires ValidBatch(batch, r, hash) && a in batch.accounts
    ensures Configured(r, a) && a.ok && a.key in S.EnabledKeys(r)
  {
    var subset := Subset(r, hash, batch.shard);
    AccountMember(batch.accounts, subset, a);
    S.SourcesKeyed(r, S.InShard(r, hash, batch.shard));
    O.SortDescSpec(S.InShard(r, hash, batch.shard), S.ByKey());
    var c :| c in subset.accounts && c.key == a.key && c.enabled && c.category == a.category;
    assert c in r.accounts;
  }

  lemma MergedAccountsOk(baseline: Snapshot, batch: Batch, r: S.Registry, hash: int -> int)
    requires ValidSnapshot(baseline, r) && ValidBatch(batch, r, hash) && SameUsers(baseline.accounts, batch.accounts)
    ensures AccountsOk(MergedAccounts(baseline, batch, r, hash), r)
    ensures Keys(MergedAccounts(baseline, batch, r, hash)) == S.EnabledKeys(r)
  {
    var all := OverrideAccounts(Elems(baseline.accounts), Elems(batch.accounts));
    var list := MergedAccounts(baseline, batch, r, hash);
    SnapshotUnique(baseline, r);
    BatchFacts(batch, r, hash);
    AccountsKeyed(Elems(baseline.accounts), Elems(batch.accounts));
    O.SortDescSpec(all, ByAccount());
    forall i | 0 <= i < |list| ensures AccountOk(list, r, i) {
      var b := MergedAccountFrom(baseline, batch, r, hash, list[i]);
      forall j | 0 <= j < i ensures list[j].key != list[i].key && list[j].user != list[i].user {
        assert O.Less(ByAccount()(list[i]), ByAccount()(list[j]));
        var c := MergedAccountFrom(baseline, batch, r, hash, list[j]);
        UsersDistinct(baseline.accounts, r, b, c);
      }
    }
    MergedKeys(baseline, batch, r, hash);
  }

  lemma UsersDistinct(accounts: seq<Account>, r: S.Registry, b: Account, c: Account)
    requires AccountsOk(accounts, r) && b in accounts && c in accounts && b.key != c.key
    ensures b.user != c.user
  {
    var i :| 0 <= i < |accounts| && accounts[i] == b;
    var j :| 0 <= j < |accounts| && accounts[j] == c;
    assert AccountOk(accounts, r, i) && AccountOk(accounts, r, j);
  }

  lemma KeysOverride(base: seq<Account>, upd: seq<Account>, list: seq<Account>)
    requires Elems(list) == OverrideAccounts(Elems(base), Elems(upd)) && Keys(upd) <= Keys(base)
    ensures Keys(list) == Keys(base)
  {
    forall k ensures k in Keys(list) ==> k in Keys(base) {
      if k in Keys(list) {
        var a :| a in list && a.key == k;
        assert a in Elems(list);
        if a in upd {
          assert k in Keys(upd);
        }
      }
    }
    forall k | k in Keys(base) ensures k in Keys(list) {
      var a :| a in base && a.key == k;
      if b :| b in upd && b.key == k {
        assert b in Elems(list);
      } else {
        assert a in Elems(list);
      }
    }
  }

  lemma MergedKeys(baseline: Snapshot, batch: Batch, r: S.Registry, hash: int -> int)
    requires ValidSnapshot(baseline, r) && ValidBatch(batch, r, hash)
    ensures Keys(MergedAccounts(baseline, batch, r, hash)) == S.EnabledKeys(r)
  {
    MergedPostsOf(baseline, batch, r, hash, NO_TIME);
    BatchFacts(batch, r, hash);
    KeysOverride(baseline.accounts, batch.accounts, MergedAccounts(baseline, batch, r, hash));
  }

  lemma MergedPostsOk(baseline: Snapshot, batch: Batch, r: S.Registry, hash: int -> int, now: int)
    requires ValidSnapshot(baseline, r) && ValidBatch(batch, r, hash)
    requires HandlesCurrent(baseline, batch, r, hash) && IdsApart(KeptPosts(baseline, batch, r, hash))
    ensures PostsOk(Merged(baseline, batch, r, hash, now).posts, MergedAccounts(baseline, batch, r, hash))
  {
    var kept := KeptPosts(baseline, batch, r, hash);
    var accounts := MergedAccounts(baseline, batch, r, hash);
    var list := Merged(baseline, batch, r, hash, now).posts;
    PostsKeyed(kept);
    O.SortDescSpec(kept, ByPost());
    forall i | 0 <= i < |list| ensures PostOk(list, accounts, i) {
      assert list[i] in kept;
      KeptPostOwned(baseline, batch, r, hash, list[i]);
      forall j | 0 <= j < i ensures list[j].id != list[i].id {
        assert O.Less(ByPost()(list[i]), ByPost()(list[j]));
        assert list[j] in kept;
      }
    }
  }

  lemma KeptPostOwned(baseline: Snapshot, batch: Batch, r: S.Registry, hash: int -> int, p: Post)
    requires ValidSnapshot(baseline, r) && ValidBatch(batch, r, hash) && HandlesCurrent(baseline, batch, r, hash)
    requires p in KeptPosts(baseline, batch, r, hash)
    ensures OwnedBy(MergedAccounts(baseline, batch, r, hash), p) && p.ok
  {
    MergedPostsOf(baseline, batch, r, hash, NO_TIME);
    KeptFrom(baseline, batch, r, hash, p);
    var list := MergedAccounts(baseline, batch, r, hash);
    var all := OverrideAccounts(Elems(baseline.accounts), Elems(batch.accounts));
    assert Elems(list) == all;
    if p in batch.posts {
      BatchPostOk(batch, r, hash, p);
      var a :| a in batch.accounts && a.key == p.key && a.handle == p.handle;
      assert a in all;
    } else {
      PostMember(baseline.posts, baseline.accounts, p);
      var a :| a in baseline.accounts && a.key == p.key && a.handle == p.handle;
      if p.key in Keys(batch.accounts) {
        var b :| b in batch.accounts && b.key == p.key;
        assert b in all;
      } else {
        assert a in all;
      }
    }
  }

  lemma KeptFrom(baseline: Snapshot, batch: Batch, r: S.Registry, hash: int -> int, p: Post)
    requires ValidSnapshot(baseline, r) && ValidBatch(batch, r, hash) && p in KeptPosts(baseline, batch, r, hash)
    ensures p in baseline.posts || p in batch.posts
  {
    SnapshotUnique(baseline, r);
    BatchFacts(batch, r, hash);
    OverrideUnique(Elems(baseline.posts), Elems(batch.posts));
    MergedWithin(Override(Elems(baseline.posts), Elems(batch.posts)), Keys(batch.accounts), S.Enabled(r));
    assert p in Override(Elems(baseline.posts), Elems(batch.posts));
  }

  lemma PostMember(posts: seq<Post>, accounts: seq<Account>, p: Post)
    requires PostsOk(posts, accounts) && p in posts
    ensures OwnedBy(accounts, p) && p.ok
  {
    var i :| 0 <= i < |posts| && posts[i] == p;
    assert PostOk(posts, accounts, i);
  }

  lemma BatchPostOk(batch: Batch, r: S.Registry, hash: int -> int, p: Post)
    requires ValidBatch(batch, r, hash) && p in batch.posts
    ensures OwnedBy(batch.accounts, p) && p.ok
  {
    PostMember(batch.posts, batch.accounts, p);
  }

  lemma {:induction false} CountIsSize(posts: seq<Post>, key: int)
    requires forall i, j :: 0 <= i < j < |posts| ==> posts[i] != posts[j]
    ensures CountOf(posts, key) == |Of(Elems(posts), key)|
  {
    if posts != [] {
      var n := |posts| - 1;
      var front, p := posts[..n], posts[n];
      CountIsSize(front, key);
      assert posts == front + [p];
      assert p !in front;
      forall q ensures q in Of(Elems(posts), key) <==> q in Of(Elems(front), key) || (q == p && p.key == key) { }
      assert Of(Elems(posts), key) == Of(Elems(front), key) + (if p.key == key then {p} else {});
    }
  }

  lemma MergedCounts(baseline: Snapshot, batch: Batch, r: S.Registry, hash: int -> int, now: int)
    requires ValidSnapshot(baseline, r) && ValidBatch(batch, r, hash)
    ensures var posts := Merged(baseline, batch, r, hash, now).posts;
      forall i :: 0 <= i < |r.accounts| && r.accounts[i].enabled ==> CountOf(posts, r.accounts[i].key) <= r.accounts[i].maxPosts
  {
    var posts := Merged(baseline, batch, r, hash, now).posts;
    MergedPostsOf(baseline, batch, r, hash, now);
    SortedDistinct(KeptPosts(baseline, batch, r, hash));
    forall i | 0 <= i < |r.accounts| && r.accounts[i].enabled ensures CountOf(posts, r.accounts[i].key) <= r.accounts[i].maxPosts {
      CountIsSize(posts, r.accounts[i].key);
      KeptSize(baseline, batch, r, hash, i);
    }
  }

  lemma {:induction false} SortedDistinct(posts: set<Post>)
    requires IdUnique(posts)
    ensures O.Keyed(posts, ByPost())
    ensures forall i, j :: 0 <= i < j < |O.SortDesc(posts, ByPost())| ==> O.SortDesc(posts, ByPost())[i] != O.SortDesc(posts, ByPost())[j]
  {
    PostsKeyed(posts);
    O.SortDescSpec(posts, ByPost());
    var list := O.SortDesc(posts, ByPost());
    forall i, j | 0 <= i < j < |list| ensures list[i] != list[j] {
      assert O.Less(ByPost()(list[j]), ByPost()(list[i]));
    }
  }

  lemma KeptSize(baseline: Snapshot, batch: Batch, r: S.Registry, hash: int -> int, i: int)
    requires ValidSnapshot(baseline, r) && ValidBatch(batch, r, hash) && 0 <= i < |r.accounts| && r.accounts[i].enabled
    ensures |Of(KeptPosts(baseline, batch, r, hash), r.accounts[i].key)| <= r.accounts[i].maxPosts
  {
    var c := r.accounts[i];
    assert c in S.Enabled(r);
    KeptOfAccount(baseline, batch, r, hash, c);
    var over := Override(Of(Elems(baseline.posts), c.key), Of(Elems(batch.posts), c.key));
    if c.key in Keys(batch.accounts) {
      TopAtMost(over, c.maxPosts);
    } else {
      BatchFacts(batch, r, hash);
      assert Of(Elems(batch.posts), c.key) == {};
      NoUpdate(Of(Elems(baseline.posts), c.key));
      PostsDistinct(baseline.posts, baseline.accounts);
      CountIsSize(baseline.posts, c.key);
    }
  }

  lemma TopAtMost(posts: set<Post>, n: nat)
    requires IdUnique(posts)
    ensures |Elems(TopPosts(posts, n))| <= n
  {
    PostsKeyed(posts);
    O.SortDescSpec(posts, ByPost());
    if n <= |posts| {
      TopSize(posts, n);
    } else {
      SortedElems(posts, ByPost());
      assert TopPosts(posts, n) == O.SortDesc(posts, ByPost());
    }
  }

  /** One older post kept under a former handle, and the account cannot be merged at any time. */
  lemma RenameBlocksMerge(baseline: Snapshot, batch: Batch, r: S.Registry, hash: int -> int, now: int, a: Account, p: Post)
    requires ValidSnapshot(baseline, r) && ValidBatch(batch, r, hash)
    requires a in batch.accounts && p in KeptPosts(baseline, batch, r, hash) && p.key == a.key && p.handle != a.handle
    ensures MergeResult(baseline, batch, r, hash, now).None?
  {
    MergeSucceedsIff(baseline, batch, r, hash, now);
  }

  /** One account, renamed from handle 1 to handle 2, with one older post that the fetch did not
      bring again. */
  function OneAccount(): S.Registry {
    S.Registry(40, [S.Source(1, 1, 1, true, 40)])
  }

  function BeforeRename(): Snapshot {
    Snapshot(1, [Account(1, 9, 1, 1, true, 0)], [Post(1, 5, 1, 1, true, 0)])
  }

  function AfterRename(): Batch {
    Batch(2, 0, [Account(1, 9, 2, 1, true, 0)], [], [])
  }

  lemma OneShard(hash: int -> int)
    ensures S.ValidRegistry(OneAccount()) && S.EnabledKeys(OneAccount()) == {1}
    ensures S.Members({1}, hash, 0) == {1}
    ensures Subset(OneAccount(), hash, 0) == OneAccount()
  {
    var c := S.Source(1, 1, 1, true, 40);
    assert OneAccount().accounts[0] == c;
    forall k ensures k in S.EnabledKeys(OneAccount()) <==> k == 1 { }
    S.MembersSize({1}, hash, 0);
    assert |S.Members({1}, hash, 0)| == 1;
    var k := O.Element(S.Members({1}, hash, 0));
    forall a ensures a in S.InShard(OneAccount(), hash, 0) <==> a == c { }
    assert S.InShard(OneAccount(), hash, 0) == {c};
    S.SourcesKeyed(OneAccount(), {c});
    O.SortDescSpec({c}, S.ByKey());
    assert O.SortDesc({c}, S.ByKey()) == [c];
  }

  /** A snapshot of the one account, with at most the one post. */
  lemma OneAccountValid(s: Snapshot)
    requires s.fetchedAt != NO_TIME && |s.accounts| == 1 && s.accounts[0] == Account(1, 9, s.accounts[0].handle, 1, true, 0)
    requires s.posts == [] || s.posts == [Post(1, 5, 1, s.accounts[0].handle, true, 0)]
    ensures ValidSnapshot(s, OneAccount())
  {
    var r := OneAccount();
    assert r.accounts[0] in r.accounts && s.accounts[0] in s.accounts;
    assert Configured(r, s.accounts[0]);
    assert AccountOk(s.accounts, r, 0);
    forall k ensures k in Keys(s.accounts) <==> k in S.EnabledKeys(r) { }
    forall i | 0 <= i < |s.posts| ensures PostOk(s.posts, s.accounts, i) {
      assert OwnedBy(s.accounts, s.posts[i]);
    }
    assert |s.posts| == 1 ==> s.posts[..0] == [];
    assert CountOf(s.posts, 1) <= 1;
  }

  lemma RenameInputsValid(hash: int -> int)
    ensures ValidSnapshot(BeforeRename(), OneAccount()) && ValidBatch(AfterRename(), OneAccount(), hash)
  {
    OneShard(hash);
    OneAccountValid(BeforeRename());
    OneAccountValid(Fragment(AfterRename()));
  }

  lemma SolePostKept(p: Post, n: nat)
    requires n > 0
    ensures IdUnique({p}) && p in Elems(TopPosts({p}, n))
  {
    PostsKeyed({p});
    O.SortDescSpec({p}, ByPost());
    assert TopPosts({p}, n) == O.SortDesc({p}, ByPost());
  }

  lemma OldPostKept(hash: int -> int)
    requires ValidSnapshot(BeforeRename(), OneAccount()) && ValidBatch(AfterRename(), OneAccount(), hash)
    ensures BeforeRename().posts[0] in KeptPosts(BeforeRename(), AfterRename(), OneAccount(), hash)
  {
    var s, b := BeforeRename(), AfterRename();
    var p, c := s.posts[0], OneAccount().accounts[0];
    assert c in S.Enabled(OneAccount());
    KeptOfAccount(s, b, OneAccount(), hash, c);
    PostsOfOne(p);
    SolePostKept(p, 40);
    assert p in Of(KeptPosts(s, b, OneAccount(), hash), 1);
  }

  lemma PostsOfOne(p: Post)
    ensures Override(Of(Elems([p]), p.key), Of(Elems([]), p.key)) == {p}
  {
    forall q ensures q in Of(Elems([p]), p.key) <==> q == p { }
    assert Of(Elems([p]), p.key) == {p};
    assert Of(Elems([]), p.key) == {};
    NoUpdate({p});
  }

  /** Its merge fails at every time, though both inputs are valid. */
  lemma RenameExample(hash: int -> int, now: int)
    ensures ValidSnapshot(BeforeRename(), OneAccount()) && ValidBatch(AfterRename(), OneAccount(), hash)
    ensures MergeResult(BeforeRename(), AfterRename(), OneAccount(), hash, now).None?
  {
    RenameInputsValid(hash);
    OldPostKept(hash);
    RenameBlocksMerge(BeforeRename(), AfterRename(), OneAccount(), hash, now, AfterRename().accounts[0], BeforeRename().posts[0]);
  }

  // ---------------------------------------------------------------------------
  // Merging twice
  // ---------------------------------------------------------------------------

  lemma TopIsHighest(s: set<Post>, n: nat, x: Post, y: Post)
    requires IdUnique(s) && x in Elems(TopPosts(s, n)) && y in s && y !in Elems(TopPosts(s, n))
    ensures O.Less(ByPost()(y), ByPost()(x))
  {
    PostsKeyed(s);
    var r := O.SortDesc(s, ByPost());
    O.SortDescSpec(s, ByPost());
    var top := TopPosts(s, n);
    var i :| 0 <= i < |top| && top[i] == x;
    var j :| 0 <= j < |r| && r[j] == y;
    assert forall k :: 0 <= k < |top| ==> top[k] == r[k] && top[k] in Elems(top);
  }

  /** The top rows, then everything else. */
  lemma TopFirst(s: set<Post>, t: set<Post>, n: nat)
    requires IdUnique(s) && n <= |s| && t <= s && Elems(TopPosts(s, n)) <= t
    ensures IdUnique(t) && IdUnique(Elems(TopPosts(s, n)))
    ensures O.Keyed(Elems(TopPosts(s, n)), ByPost())
    ensures TopPosts(t, n) == O.SortDesc(Elems(TopPosts(s, n)), ByPost())
  {
    var hi := Elems(TopPosts(s, n));
    PostsKeyed(t);
    PostsKeyed(hi);
    forall x, y | x in hi && y in t - hi ensures O.Less(ByPost()(y), ByPost()(x)) {
      TopIsHighest(s, n, x, y);
    }
    forall x ensures x in t <==> x in hi + (t - hi) { }
    O.SortSplit(t, hi, t - hi, ByPost());
    O.SortDescSpec(hi, ByPost());
    TopSize(s, n);
    O.TakeConcat(O.SortDesc(hi, ByPost()), O.SortDesc(t - hi, ByPost()), n);
  }

  /** Dropping rows that LIMIT n cut off anyway changes nothing. */
  lemma TopOfBetween(s: set<Post>, t: set<Post>, n: nat)
    requires IdUnique(s) && t <= s && Elems(TopPosts(s, n)) <= t
    ensures IdUnique(t) && TopPosts(t, n) == TopPosts(s, n)
  {
    if n <= |s| {
      TopFirst(s, t, n);
      TopFirst(s, s, n);
    } else {
      PostsKeyed(s);
      O.SortDescSpec(s, ByPost());
      SortedElems(s, ByPost());
      assert TopPosts(s, n) == O.SortDesc(s, ByPost());
      assert t == s;
    }
  }

  lemma TopSize(s: set<Post>, n: nat)
    requires IdUnique(s) && n <= |s|
    ensures |Elems(TopPosts(s, n))| == n
  {
    PostsKeyed(s);
    O.SortDescSpec(s, ByPost());
    var top := TopPosts(s, n);
    forall i, j | 0 <= i < j < |top| ensures O.Less(ByPost()(top[j]), ByPost()(top[i])) {
      assert top[i] == O.SortDesc(s, ByPost())[i] && top[j] == O.SortDesc(s, ByPost())[j];
    }
    O.DescendingLength(top, Elems(top), ByPost());
  }

  /** Applying the batch again to what one account kept. */
  lemma KeptAgain(base: set<Post>, upd: set<Post>, selected: bool, max: int)
    requires IdUnique(base) && IdUnique(upd) && IdUnique(Override(base, upd)) && max >= 0 && (!selected ==> upd == {})
    ensures var kept := Kept(Override(base, upd), selected, max);
      IdUnique(Override(kept, upd)) && Kept(Override(kept, upd), selected, max) == kept
  {
    var over := Override(base, upd);
    var kept := Kept(over, selected, max);
    KeptOf(over, selected, max);
    var again := Override(kept, upd);
    forall p ensures p in again <==> p in kept + upd {
      if p in kept && p !in upd {
        forall q | q in upd ensures !Same(p, q) { }
      }
    }
    if selected {
      assert again <= over;
      TopOfBetween(over, again, max);
    } else {
      NoUpdate(kept);
    }
  }

  lemma SamePostsByAccount(a: set<Post>, b: set<Post>, r: S.Registry)
    requires forall p :: p in a || p in b ==> p.key in S.EnabledKeys(r)
    requires forall c :: c in S.Enabled(r) ==> Of(a, c.key) == Of(b, c.key)
    ensures a == b
  {
    forall p ensures p in a <==> p in b {
      if p in a || p in b {
        var c :| c in r.accounts && c.enabled && c.key == p.key;
        assert c in S.Enabled(r);
        assert p in a <==> p in Of(a, c.key);
        assert p in b <==> p in Of(b, c.key);
      }
    }
  }

  lemma KeptPostsEnabled(baseline: Snapshot, batch: Batch, r: S.Registry, hash: int -> int)
    requires ValidSnapshot(baseline, r) && ValidBatch(batch, r, hash)
    ensures forall p :: p in KeptPosts(baseline, batch, r, hash) ==> p.key in S.EnabledKeys(r)
  {
    SnapshotUnique(baseline, r);
    BatchFacts(batch, r, hash);
    OverrideUnique(Elems(baseline.posts), Elems(batch.posts));
    MergedWithin(Override(Elems(baseline.posts), Elems(batch.posts)), Keys(batch.accounts), S.Enabled(r));
    forall k | k in (set c | c in S.Enabled(r) :: c.key) ensures k in S.EnabledKeys(r) { }
  }

  /** Merging the same batch again at the same time succeeds and changes nothing. */
  lemma MergeIdempotent(baseline: Snapshot, batch: Batch, r: S.Registry, hash: int -> int, now: int)
    requires MergeResult(baseline, batch, r, hash, now).Some?
    ensures var next := MergeResult(baseline, batch, r, hash, now).value;
      MergeResult(next, batch, r, hash, now) == Some(next)
  {
    var next := MergeResult(baseline, batch, r, hash, now).value;
    MergedPostsOf(baseline, batch, r, hash, now);
    var kept := KeptPosts(baseline, batch, r, hash);
    var again := KeptPosts(next, batch, r, hash);
    KeptPostsEnabled(baseline, batch, r, hash);
    KeptPostsEnabled(next, batch, r, hash);
    forall c | c in S.Enabled(r) ensures Of(kept, c.key) == Of(again, c.key) {
      KeptOfAccountTwice(baseline, next, batch, r, hash, c);
    }
    SamePostsByAccount(kept, again, r);
    var accounts := OverrideAccounts(Elems(baseline.accounts), Elems(batch.accounts));
    forall a ensures a in OverrideAccounts(accounts, Elems(batch.accounts)) <==> a in accounts { }
    assert OverrideAccounts(accounts, Elems(batch.accounts)) == accounts;
    SameUsersAgain(baseline, next, batch, r, hash);
  }

  lemma KeptOfAccountTwice(baseline: Snapshot, next: Snapshot, batch: Batch, r: S.Registry, hash: int -> int, c: S.Source)
    requires ValidSnapshot(baseline, r) && ValidSnapshot(next, r) && ValidBatch(batch, r, hash) && c in S.Enabled(r)
    requires Elems(next.posts) == KeptPosts(baseline, batch, r, hash)
    ensures Of(KeptPosts(baseline, batch, r, hash), c.key) == Of(KeptPosts(next, batch, r, hash), c.key)
  {
    SnapshotUnique(baseline, r);
    BatchFacts(batch, r, hash);
    KeptOfAccount(baseline, batch, r, hash, c);
    KeptOfAccount(next, batch, r, hash, c);
    var upd := Of(Elems(batch.posts), c.key);
    if c.key !in Keys(batch.accounts) {
      assert upd == {};
    }
    KeptAgain(Of(Elems(baseline.posts), c.key), upd, c.key in Keys(batch.accounts), c.maxPosts);
  }

  lemma SameUsersAgain(baseline: Snapshot, next: Snapshot, batch: Batch, r: S.Registry, hash: int -> int)
    requires ValidSnapshot(baseline, r) && ValidBatch(batch, r, hash)
    requires Elems(next.accounts) == OverrideAccounts(Elems(baseline.accounts), Elems(batch.accounts))
    ensures SameUsers(next.accounts, batch.accounts)
  {
    BatchFacts(batch, r, hash);
    forall a, b | a in next.accounts && b in batch.accounts && a.key == b.key ensures a.user == b.user {
      assert a in Elems(next.accounts) && b in Elems(batch.accounts);
      assert a in batch.accounts;
      assert ByAccount()(a) == ByAccount()(b);
    }
  }

  // ---------------------------------------------------------------------------
  // Merging two shards
  // ---------------------------------------------------------------------------

  lemma ShardsDisjoint(b: Batch, d: Batch, r: S.Registry, hash: int -> int)
    requires ValidBatch(b, r, hash) && ValidBatch(d, r, hash) && b.shard != d.shard
    ensures Keys(b.accounts) !! Keys(d.accounts)
  {
    BatchFacts(b, r, hash);
    BatchFacts(d, r, hash);
    S.AssignmentIsBalancedPartition(S.EnabledKeys(r), hash);
  }

  /** After batch b on top of batch a, an account outside b's shard is as a left it, and one
      inside is as b alone would leave it. */
  lemma SecondMergeOfAccount(baseline: Snapshot, mid: Snapshot, a: Batch, b: Batch, r: S.Registry, hash: int -> int, c: S.Source)
    requires ValidSnapshot(baseline, r) && ValidSnapshot(mid, r) && ValidBatch(a, r, hash) && ValidBatch(b, r, hash) && a.shard != b.shard
    requires Elems(mid.posts) == KeptPosts(baseline, a, r, hash) && c in S.Enabled(r)
    ensures Of(KeptPosts(mid, b, r, hash), c.key) ==
      if c.key in Keys(b.accounts) then Of(KeptPosts(baseline, b, r, hash), c.key) else Of(KeptPosts(baseline, a, r, hash), c.key)
  {
    BatchFacts(a, r, hash);
    BatchFacts(b, r, hash);
    ShardsDisjoint(a, b, r, hash);
    KeptOfAccount(mid, b, r, hash, c);
    KeptOfAccount(baseline, a, r, hash, c);
    KeptOfAccount(baseline, b, r, hash, c);
    var base := Of(Elems(baseline.posts), c.key);
    if c.key in Keys(b.accounts) {
      assert Of(Elems(a.posts), c.key) == {};
      NoUpdate(base);
    } else {
      assert Of(Elems(b.posts), c.key) == {};
      NoUpdate(Of(Elems(mid.posts), c.key));
    }
  }

  lemma PostsCommute(baseline: Snapshot, midA: Snapshot, midB: Snapshot, a: Batch, b: Batch, r: S.Registry, hash: int -> int)
    requires ValidSnapshot(baseline, r) && ValidSnapshot(midA, r) && ValidSnapshot(midB, r)
    requires ValidBatch(a, r, hash) && ValidBatch(b, r, hash) && a.shard != b.shard
    requires Elems(midA.posts) == KeptPosts(baseline, a, r, hash) && Elems(midB.posts) == KeptPosts(baseline, b, r, hash)
    ensures KeptPosts(midA, b, r, hash) == KeptPosts(midB, a, r, hash)
  {
    var ab, ba := KeptPosts(midA, b, r, hash), KeptPosts(midB, a, r, hash);
    forall c | c in S.Enabled(r) ensures Of(ab, c.key) == Of(ba, c.key) {
      ShardsDisjoint(a, b, r, hash);
      SecondMergeOfAccount(baseline, midA, a, b, r, hash, c);
      SecondMergeOfAccount(baseline, midB, b, a, r, hash, c);
      if c.key !in Keys(a.accounts) && c.key !in Keys(b.accounts) {
        NeitherSelected(baseline, a, b, r, hash, c);
      }
    }
    KeptPostsEnabled(midA, b, r, hash);
    KeptPostsEnabled(midB, a, r, hash);
    SamePostsByAccount(ab, ba, r);
  }

  /** Merges of two different shards commute, up to the time stamp, whenever both orders
      succeed. */
  lemma MergesCommute(baseline: Snapshot, a: Batch, b: Batch, r: S.Registry, hash: int -> int, now: int, then': int)
    requires a.shard != b.shard
    requires MergeResult(baseline, a, r, hash, now).Some? && MergeResult(baseline, b, r, hash, then').Some?
    requires MergeResult(MergeResult(baseline, a, r, hash, now).value, b, r, hash, then').Some?
    requires MergeResult(MergeResult(baseline, b, r, hash, then').value, a, r, hash, now).Some?
    ensures var ab := MergeResult(MergeResult(baseline, a, r, hash, now).value, b, r, hash, then').value;
      var ba := MergeResult(MergeResult(baseline, b, r, hash, then').value, a, r, hash, now).value;
      ab.accounts == ba.accounts && ab.posts == ba.posts
  {
    var midA, midB := MergeResult(baseline, a, r, hash, now).value, MergeResult(baseline, b, r, hash, then').value;
    MergedPostsOf(baseline, a, r, hash, now);
    MergedPostsOf(baseline, b, r, hash, then');
    PostsCommute(baseline, midA, midB, a, b, r, hash);
    ShardsDisjoint(a, b, r, hash);
    DisjointKeys(a.accounts, b.accounts);
    AccountsCommute(Elems(baseline.accounts), Elems(a.accounts), Elems(b.accounts));
  }

  lemma DisjointKeys(a: seq<Account>, b: seq<Account>)
    requires Keys(a) !! Keys(b)
    ensures forall x, y :: x in Elems(a) && y in Elems(b) ==> x.key != y.key
  {
    forall x, y | x in Elems(a) && y in Elems(b) ensures x.key != y.key {
      assert x.key in Keys(a) && y.key in Keys(b);
    }
  }

  lemma NeitherSelected(baseline: Snapshot, a: Batch, b: Batch, r: S.Registry, hash: int -> int, c: S.Source)
    requires ValidSnapshot(baseline, r) && ValidBatch(a, r, hash) && ValidBatch(b, r, hash) && c in S.Enabled(r)
    requires c.key !in Keys(a.accounts) && c.key !in Keys(b.accounts)
    ensures Of(KeptPosts(baseline, a, r, hash), c.key) == Of(KeptPosts(baseline, b, r, hash), c.key)
  {
    BatchFacts(a, r, hash);
    BatchFacts(b, r, hash);
    KeptOfAccount(baseline, a, r, hash, c);
    KeptOfAccount(baseline, b, r, hash, c);
    assert Of(Elems(a.posts), c.key) == {} && Of(Elems(b.posts), c.key) == {};
  }

  lemma AccountsCommute(base: set<Account>, a: set<Account>, b: set<Account>)
    requires forall x, y :: x in a && y in b ==> x.key != y.key
    ensures OverrideAccounts(OverrideAccounts(base, a), b) == OverrideAccounts(OverrideAccounts(base, b), a)
  { }

  // ---------------------------------------------------------------------------
  // The merge as it is carried out
  // ---------------------------------------------------------------------------

  /** Accounts overwritten in place, found through an index by key. */
  method OverwriteAccounts(base: seq<Account>, upd: seq<Account>) returns (next: seq<Account>)
    requires forall i, j :: 0 <= i < j < |base| ==> base[i].key != base[j].key
    requires forall i, j :: 0 <= i < j < |upd| ==> upd[i].key != upd[j].key
    requires forall i :: 0 <= i < |upd| ==> upd[i].key in Keys(base)
    ensures |next| == |base|
    ensures forall i :: 0 <= i < |base| ==> next[i].key == base[i].key
    ensures Elems(next) == OverrideAccounts(Elems(base), Elems(upd))
  {
    next := base;
    var index: map<int, int> := map[];
    for i := 0 to |base|
      invariant forall k :: k in index <==> exists j :: 0 <= j < i && base[j].key == k
      invariant forall k :: k in index ==> 0 <= index[k] < i && base[index[k]].key == k
    {
      index := index[base[i].key := i];
    }
    for i := 0 to |upd|
      invariant |next| == |base|
      invariant forall j :: 0 <= j < |base| ==> next[j].key == base[j].key
      invariant forall j :: 0 <= j < |base| ==> next[j] == base[j] || next[j] in upd[..i]
      invariant forall j :: 0 <= j < i ==> upd[j].key in index && next[index[upd[j].key]] == upd[j]
      invariant forall j :: 0 <= j < |base| && base[j].key !in Keys(upd[..i]) ==> next[j] == base[j]
    {
      KeyIsListed(base, upd[i].key);
      assert upd[..i + 1] == upd[..i] + [upd[i]];
      assert upd[i] in upd[..i + 1];
      next := next[index[upd[i].key] := upd[i]];
    }
    assert upd[..|upd|] == upd;
    OverwrittenElems(base, upd, next);
  }

  lemma KeyIsListed(base: seq<Account>, key: int)
    requires key in Keys(base)
    ensures exists j :: 0 <= j < |base| && base[j].key == key
  { }

  lemma OverwrittenElems(base: seq<Account>, upd: seq<Account>, next: seq<Account>)
    requires |next| == |base|
    requires forall i, j :: 0 <= i < j < |base| ==> base[i].key != base[j].key
    requires forall j :: 0 <= j < |base| ==> next[j].key == base[j].key
    requires forall j :: 0 <= j < |base| ==> next[j] == base[j] || next[j] in upd
    requires forall j :: 0 <= j < |upd| ==> upd[j] in next
    requires forall j :: 0 <= j < |base| && base[j].key !in Keys(upd) ==> next[j] == base[j]
    ensures Elems(next) == OverrideAccounts(Elems(base), Elems(upd))
  { }

  ghost predicate IndexedFrom(m: map<(int, int), Post>, base: seq<Post>, upd: seq<Post>) {
    && (forall k :: k in m ==> k == (m[k].key, m[k].id) && (m[k] in base || m[k] in upd))
    && (forall j :: 0 <= j < |base| ==> (base[j].key, base[j].id) in m)
  }

  method IndexBaseline(base: seq<Post>) returns (m: map<(int, int), Post>)
    ensures IndexedFrom(m, base, [])
  {
    m := map[];
    for i := 0 to |base|
      invariant forall k :: k in m ==> k == (m[k].key, m[k].id) && m[k] in base
      invariant forall j :: 0 <= j < i ==> (base[j].key, base[j].id) in m
    {
      m := m[(base[i].key, base[i].id) := base[i]];
    }
  }

  /** Posts by (registry key, source id), batch over baseline. */
  method IndexPosts(base: seq<Post>, upd: seq<Post>) returns (m: map<(int, int), Post>)
    requires IdUnique(Elems(base)) && IdUnique(Elems(upd))
    ensures forall k :: k in m ==> k == (m[k].key, m[k].id)
    ensures m.Values == Override(Elems(base), Elems(upd))
  {
    m := IndexBaseline(base);
    for i := 0 to |upd|
      invariant IndexedFrom(m, base, upd)
      invariant forall j :: 0 <= j < i ==> (upd[j].key, upd[j].id) in m && m[(upd[j].key, upd[j].id)] in upd
    {
      m := m[(upd[i].key, upd[i].id) := upd[i]];
    }
    IndexedValues(base, upd, m);
  }

  lemma IndexedValues(base: seq<Post>, upd: seq<Post>, m: map<(int, int), Post>)
    requires IdUnique(Elems(base)) && IdUnique(Elems(upd))
    requires forall k :: k in m ==> k == (m[k].key, m[k].id) && (m[k] in base || m[k] in upd)
    requires forall j :: 0 <= j < |base| ==> (base[j].key, base[j].id) in m
    requires forall j :: 0 <= j < |upd| ==> (upd[j].key, upd[j].id) in m && m[(upd[j].key, upd[j].id)] in upd
    ensures m.Values == Override(Elems(base), Elems(upd))
  { }

  function ListOf(g: map<int, seq<Post>>, key: int): seq<Post> {
    if key in g then g[key] else []
  }

  ghost function ValuesAt(m: map<(int, int), Post>, ks: set<(int, int)>): set<Post> {
    set k | k in ks && k in m :: m[k]
  }

  ghost predicate Grouped(g: map<int, seq<Post>>, posts: set<Post>) {
    forall key :: O.Lists(ListOf(g, key), Of(posts, key))
  }

  lemma GroupOne(g: map<int, seq<Post>>, posts: set<Post>, p: Post)
    requires Grouped(g, posts) && p !in posts
    ensures Grouped(g[p.key := ListOf(g, p.key) + [p]], posts + {p})
  {
    var g' := g[p.key := ListOf(g, p.key) + [p]];
    forall key ensures O.Lists(ListOf(g', key), Of(posts + {p}, key)) {
      assert O.Lists(ListOf(g, key), Of(posts, key));
      if key == p.key {
        assert Of(posts + {p}, key) == Of(posts, key) + {p};
        assert O.Lists([p], {p});
        O.ConcatLists(ListOf(g, key), [p], Of(posts, key), {p});
      } else {
        assert Of(posts + {p}, key) == Of(posts, key);
      }
    }
  }

  lemma ValuesGrow(m: map<(int, int), Post>, ks: set<(int, int)>, k: (int, int))
    requires k in m && k !in ks && forall j :: j in m ==> j == (m[j].key, m[j].id)
    ensures m[k] !in ValuesAt(m, ks) && ValuesAt(m, ks + {k}) == ValuesAt(m, ks) + {m[k]}
  { }

  /** Posts by account, taken from the index in an order that Go does not fix. */
  method GroupPosts(m: map<(int, int), Post>) returns (g: map<int, seq<Post>>)
    requires forall k :: k in m ==> k == (m[k].key, m[k].id)
    ensures Grouped(g, m.Values)
  {
    g := map[];
    var remaining := m.Keys;
    ghost var visited: set<(int, int)> := {};
    while remaining != {}
      invariant forall k :: k in m <==> k in visited || k in remaining
      invariant visited !! remaining
      invariant Grouped(g, ValuesAt(m, visited))
      decreases remaining
    {
      var k := O.Pick(remaining);
      GroupOne(g, ValuesAt(m, visited), m[k]) by { ValuesGrow(m, visited, k); }
      ValuesGrow(m, visited, k);
      g := g[m[k].key := ListOf(g, m[k].key) + [m[k]]];
      remaining := remaining - {k};
      visited := visited + {k};
    }
    forall p ensures p in ValuesAt(m, visited) <==> p in m.Values { }
    assert ValuesAt(m, visited) == m.Values;
  }

  function EnabledIn(accounts: seq<S.Source>): set<S.Source> {
    set c | c in accounts && c.enabled
  }

  lemma InMerged(over: set<Post>, selected: set<int>, sources: set<S.Source>, d: S.Source, p: Post)
    requires IdUnique(over) && forall c :: c in sources ==> c.maxPosts >= 0
    requires d in sources && p in Kept(Of(over, d.key), d.key in selected, d.maxPosts)
    ensures p in MergedPosts(over, selected, sources)
  { }

  lemma GatherOne(over: set<Post>, selected: set<int>, sources: set<S.Source>, c: S.Source)
    requires IdUnique(over) && c.maxPosts >= 0 && forall d :: d in sources ==> d.maxPosts >= 0 && d.key != c.key
    ensures var kept := Kept(Of(over, c.key), c.key in selected, c.maxPosts);
      && MergedPosts(over, selected, sources + {c}) == MergedPosts(over, selected, sources) + kept
      && MergedPosts(over, selected, sources) !! kept
  {
    var kept := Kept(Of(over, c.key), c.key in selected, c.maxPosts);
    var before := MergedPosts(over, selected, sources);
    KeptOf(Of(over, c.key), c.key in selected, c.maxPosts);
    MergedWithin(over, selected, sources);
    forall p ensures p in MergedPosts(over, selected, sources + {c}) <==> p in before + kept {
      if p in MergedPosts(over, selected, sources + {c}) {
        var d :| d in sources + {c} && p in Kept(Of(over, d.key), d.key in selected, d.maxPosts);
        if d != c {
          assert d in sources;
          assert p in before;
        }
        assert p in before + kept;
      }
      if p in before {
        var d :| d in sources && p in Kept(Of(over, d.key), d.key in selected, d.maxPosts);
        assert d in sources + {c};
        assert p in MergedPosts(over, selected, sources + {c});
      }
      if p in kept {
        InMerged(over, selected, sources + {c}, c, p);
      }
    }
    forall p | p in kept ensures p !in before {
      assert p.key == c.key;
      assert p.key !in set d | d in sources :: d.key;
    }
  }

  /** One account's list, sorted and cut when the account is selected. */
  method CutAccount(posts: seq<Post>, ghost all: set<Post>, selected: bool, max: int) returns (kept: seq<Post>)
    requires IdUnique(all) && O.Lists(posts, all) && max >= 0
    ensures O.Lists(kept, Kept(all, selected, max))
  {
    if !selected {
      return posts;
    }
    forall p ensures p in Elems(posts) <==> p in all { }
    assert Elems(posts) == all;
    PostsKeyed(all);
    O.SortDescSpec(all, ByPost());
    kept := O.SortDesc(Elems(posts), ByPost());
    if |kept| > max {
      kept := kept[..max];
    }
    assert kept == TopPosts(all, max);
    ListsItself(kept);
  }

  lemma ListsItself(kept: seq<Post>)
    requires O.Descending(kept, ByPost())
    ensures O.Lists(kept, Elems(kept))
  {
    O.DescendingLength(kept, Elems(kept), ByPost());
  }

  /** The gathered list grows by what the next account keeps. */
  method GatherAccount(out: seq<Post>, g: map<int, seq<Post>>, ghost over: set<Post>, selected: set<int>, ghost sources: set<S.Source>, c: S.Source) returns (next: seq<Post>)
    requires IdUnique(over) && Grouped(g, over) && c.maxPosts >= 0
    requires forall d :: d in sources ==> d.maxPosts >= 0 && d.key != c.key
    requires O.Lists(out, MergedPosts(over, selected, sources))
    ensures O.Lists(next, MergedPosts(over, selected, sources + {c}))
  {
    var kept := CutAccount(ListOf(g, c.key), Of(over, c.key), c.key in selected, c.maxPosts);
    GatherOne(over, selected, sources, c);
    O.ConcatLists(out, kept, MergedPosts(over, selected, sources), Kept(Of(over, c.key), c.key in selected, c.maxPosts));
    next := out + kept;
  }

  lemma EnabledPrefix(r: S.Registry, i: int)
    requires S.ValidRegistry(r) && 0 <= i < |r.accounts|
    ensures EnabledIn(r.accounts[..i + 1]) == EnabledIn(r.accounts[..i]) + (if r.accounts[i].enabled then {r.accounts[i]} else {})
    ensures forall d :: d in EnabledIn(r.accounts[..i]) ==> d.maxPosts >= 0 && d.key != r.accounts[i].key
  { }

  ghost predicate GatheredTo(r: S.Registry, over: set<Post>, selected: set<int>, i: int, out: seq<Post>)
    requires IdUnique(over) && 0 <= i <= |r.accounts|
  {
    && (forall d :: d in EnabledIn(r.accounts[..i]) ==> d.maxPosts >= 0)
    && O.Lists(out, MergedPosts(over, selected, EnabledIn(r.accounts[..i])))
  }

  method GatherStep(r: S.Registry, g: map<int, seq<Post>>, ghost over: set<Post>, selected: set<int>, i: int, out: seq<Post>) returns (next: seq<Post>)
    requires S.ValidRegistry(r) && IdUnique(over) && Grouped(g, over) && 0 <= i < |r.accounts|
    requires GatheredTo(r, over, selected, i, out)
    ensures GatheredTo(r, over, selected, i + 1, next)
  {
    EnabledPrefix(r, i);
    next := out;
    if r.accounts[i].enabled {
      next := GatherAccount(out, g, over, selected, EnabledIn(r.accounts[..i]), r.accounts[i]);
    }
  }

  lemma GatheredNone(r: S.Registry, over: set<Post>, selected: set<int>)
    requires IdUnique(over)
    ensures GatheredTo(r, over, selected, 0, [])
  { }

  lemma GatheredAll(r: S.Registry, over: set<Post>, selected: set<int>, out: seq<Post>)
    requires S.ValidRegistry(r) && IdUnique(over) && GatheredTo(r, over, selected, |r.accounts|, out)
    ensures O.Lists(out, MergedPosts(over, selected, S.Enabled(r)))
  {
    assert r.accounts[..|r.accounts|] == r.accounts;
    assert EnabledIn(r.accounts) == S.Enabled(r);
  }

  /** The kept posts of every enabled account, in registry order. */
  method GatherPosts(r: S.Registry, g: map<int, seq<Post>>, ghost over: set<Post>, selected: set<int>) returns (out: seq<Post>)
    requires S.ValidRegistry(r) && IdUnique(over) && Grouped(g, over)
    ensures O.Lists(out, MergedPosts(over, selected, S.Enabled(r)))
  {
    out := [];
    GatheredNone(r, over, selected);
    for i := 0 to |r.accounts|
      invariant GatheredTo(r, over, selected, i, out)
    {
      out := GatherStep(r, g, over, selected, i, out);
    }
    GatheredAll(r, over, selected, out);
  }

  // ---------------------------------------------------------------------------
  // Putting it together
  // ---------------------------------------------------------------------------

  /** No account changes its source user. */
  method CheckUsers(base: seq<Account>, upd: seq<Account>) returns (ok: bool)
    requires forall i, j :: 0 <= i < j < |base| ==> base[i].key != base[j].key
    ensures ok <==> SameUsers(base, upd)
  {
    var byKey: map<int, Account> := map[];
    for i := 0 to |base|
      invariant forall j :: 0 <= j < i ==> base[j].key in byKey && byKey[base[j].key] == base[j]
      invariant forall k :: k in byKey ==> byKey[k] in base && byKey[k].key == k
    {
      byKey := byKey[base[i].key := base[i]];
    }
    for i := 0 to |upd|
      invariant forall a, j :: a in base && 0 <= j < i && a.key == upd[j].key ==> a.user == upd[j].user
    {
      if upd[i].key in byKey && byKey[upd[i].key].user != upd[i].user {
        assert byKey[upd[i].key] in base && upd[i] in upd;
        return false;
      }
    }
    ok := true;
  }

  /** The merge proper, on validated inputs. */
  method MergeSelected(baseline: Snapshot, batch: Batch, r: S.Registry, ghost hash: int -> int, now: int) returns (result: Option<Snapshot>)
    requires ValidSnapshot(baseline, r) && ValidBatch(batch, r, hash)
    ensures result == MergeResult(baseline, batch, r, hash, now)
  {
    SnapshotUnique(baseline, r);
    AccountsDistinct(baseline.accounts, r);
    BatchFacts(batch, r, hash);
    var sameUsers := CheckUsers(baseline.accounts, batch.accounts);
    if !sameUsers {
      return None;
    }
    BatchAccountsDistinct(batch, r, hash);
    BatchAccountsListed(baseline, batch, r, hash);
    var accounts := OverwriteAccounts(baseline.accounts, batch.accounts);
    var posts := MergePosts(baseline, batch, r, hash);
    AccountsKeyed(Elems(baseline.accounts), Elems(batch.accounts));
    var next := Snapshot(if now == NO_TIME then batch.fetchedAt else now, O.SortDesc(Elems(accounts), ByAccount()), posts);
    assert next == Merged(baseline, batch, r, hash, now);
    var valid := ValidateSnapshot(next, r);
    result := if valid then Some(next) else None;
  }

  method MergePosts(baseline: Snapshot, batch: Batch, r: S.Registry, ghost hash: int -> int) returns (posts: seq<Post>)
    requires ValidSnapshot(baseline, r) && ValidBatch(batch, r, hash)
    ensures O.Keyed(KeptPosts(baseline, batch, r, hash), ByPost())
    ensures posts == O.SortDesc(KeptPosts(baseline, batch, r, hash), ByPost())
  {
    SnapshotUnique(baseline, r);
    BatchFacts(batch, r, hash);
    OverrideUnique(Elems(baseline.posts), Elems(batch.posts));
    var index := IndexPosts(baseline.posts, batch.posts);
    var groups := GroupPosts(index);
    var gathered := GatherPosts(r, groups, index.Values, Keys(batch.accounts));
    GatheredElems(baseline, batch, r, hash, gathered);
    PostsKeyed(KeptPosts(baseline, batch, r, hash));
    posts := O.SortDesc(Elems(gathered), ByPost());
  }

  lemma GatheredElems(baseline: Snapshot, batch: Batch, r: S.Registry, hash: int -> int, gathered: seq<Post>)
    requires ValidSnapshot(baseline, r) && ValidBatch(batch, r, hash)
    requires IdUnique(Override(Elems(baseline.posts), Elems(batch.posts)))
    requires O.Lists(gathered, MergedPosts(Override(Elems(baseline.posts), Elems(batch.posts)), Keys(batch.accounts), S.Enabled(r)))
    ensures Elems(gathered) == KeptPosts(baseline, batch, r, hash)
  { }

  lemma BatchAccountsDistinct(b: Batch, r: S.Registry, hash: int -> int)
    requires ValidBatch(b, r, hash)
    ensures forall i, j :: 0 <= i < j < |b.accounts| ==> b.accounts[i].key != b.accounts[j].key
  {
    if S.Members(S.EnabledKeys(r), hash, b.shard) != {} {
      AccountsDistinct(b.accounts, Subset(r, hash, b.shard));
    }
  }

  lemma BatchAccountsListed(baseline: Snapshot, b: Batch, r: S.Registry, hash: int -> int)
    requires ValidSnapshot(baseline, r) && ValidBatch(b, r, hash)
    ensures forall i :: 0 <= i < |b.accounts| ==> b.accounts[i].key in Keys(baseline.accounts)
  {
    BatchFacts(b, r, hash);
    forall i | 0 <= i < |b.accounts| ensures b.accounts[i].key in Keys(baseline.accounts) {
      assert b.accounts[i].key in Keys(b.accounts);
    }
  }

  function AccountKeys(accounts: seq<Account>): (keys: seq<int>)
    ensures |keys| == |accounts| && forall i :: 0 <= i < |keys| ==> keys[i] == accounts[i].key
  {
    seq(|accounts|, i requires 0 <= i < |accounts| => accounts[i].key)
  }

  lemma AccountKeysElems(accounts: seq<Account>)
    ensures Elems(AccountKeys(accounts)) == Keys(accounts)
  { }

  /** Every key is among the selected ones and occurs once. */
  method CheckKeys(keys: seq<int>, selected: set<int>) returns (ok: bool, seen: set<int>)
    ensures ok <==> Distinct(keys) && forall k :: k in keys ==> k in selected
    ensures ok ==> seen == Elems(keys)
  {
    seen := {};
    for i := 0 to |keys|
      invariant forall k :: k in seen ==> exists j :: 0 <= j < i && keys[j] == k
      invariant forall j :: 0 <= j < i ==> keys[j] in seen && keys[j] in selected
      invariant forall a, b :: 0 <= a < b < i ==> keys[a] != keys[b]
    {
      if keys[i] !in selected {
        assert keys[i] in keys;
        return false, seen;
      }
      if keys[i] in seen {
        var j :| 0 <= j < i && keys[j] == keys[i];
        assert !Distinct(keys);
        return false, seen;
      }
      seen := seen + {keys[i]};
    }
    forall k ensures k in seen <==> k in Elems(keys) { }
    ok := true;
  }

  method CheckAccounts(accounts: seq<Account>, selected: set<int>) returns (ok: bool)
    ensures ok <==> Distinct(AccountKeys(accounts)) && Elems(AccountKeys(accounts)) == selected
    ensures ok ==> Keys(accounts) == selected
  {
    var known, seen := CheckKeys(AccountKeys(accounts), selected);
    AccountKeysElems(accounts);
    ok := known && seen == selected;
  }

  /** The batch validator accepts exactly the valid batches. */
  method ValidateBatch(b: Batch, r: S.Registry, hash: int -> int) returns (ok: bool)
    ensures ok <==> ValidBatch(b, r, hash)
  {
    if !S.ValidRegistry(r) || b.fetchedAt == NO_TIME {
      return false;
    }
    var selected := S.SelectShardAccounts(r, hash, b.shard);
    if selected.None? {
      return false;
    }
    var keys := set c | c in selected.value :: c.key;
    var accountsOk := CheckAccounts(b.accounts, keys);
    if !accountsOk {
      RefusedAccounts(b, r, hash);
      return false;
    }
    var fragmentOk := CheckFragment(b, r, hash, selected.value, keys);
    if !fragmentOk {
      return false;
    }
    var exhausted;
    ok, exhausted := CheckKeys(b.exhausted, keys);
  }

  method CheckFragment(b: Batch, r: S.Registry, ghost hash: int -> int, selected: seq<S.Source>, ghost keys: set<int>) returns (ok: bool)
    requires S.ValidRegistry(r)
    requires O.Lists(selected, S.InShard(r, hash, b.shard)) && O.Descending(selected, S.ByKey())
    requires keys == (set c | c in selected :: c.key) == S.Members(S.EnabledKeys(r), hash, b.shard) == Keys(b.accounts)
    ensures ok <==> FragmentOk(b, r, hash)
  {
    SelectedSubset(r, hash, b.shard, selected);
    if |selected| == 0 {
      assert keys == {};
      KeysOfSome(b.accounts);
      return b.posts == [];
    }
    assert selected[0].key in keys;
    ok := ValidateSnapshot(Fragment(b), S.Registry(r.defaultMaxPosts, selected));
  }

  lemma KeysOfSome(accounts: seq<Account>)
    ensures accounts != [] ==> Keys(accounts) != {}
  {
    if accounts != [] {
      assert accounts[0].key in Keys(accounts);
    }
  }

  lemma SelectedSubset(r: S.Registry, hash: int -> int, shard: int, selected: seq<S.Source>)
    requires S.ValidRegistry(r)
    requires O.Lists(selected, S.InShard(r, hash, shard)) && O.Descending(selected, S.ByKey())
    ensures S.Registry(r.defaultMaxPosts, selected) == Subset(r, hash, shard)
  {
    var inShard := S.InShard(r, hash, shard);
    S.SourcesKeyed(r, inShard);
    O.SortDescSpec(inShard, S.ByKey());
    O.ListingUnique(selected, O.SortDesc(inShard, S.ByKey()), inShard, S.ByKey());
  }

  lemma RefusedAccounts(b: Batch, r: S.Registry, hash: int -> int)
    requires S.ValidRegistry(r) && 0 <= b.shard < S.SHARD_COUNT
    requires !(Distinct(AccountKeys(b.accounts)) && Elems(AccountKeys(b.accounts)) == S.Members(S.EnabledKeys(r), hash, b.shard))
    ensures !ValidBatch(b, r, hash)
  {
    AccountKeysElems(b.accounts);
    if ValidBatch(b, r, hash) {
      BatchFacts(b, r, hash);
      BatchAccountsDistinct(b, r, hash);
    }
  }

  /** Merging a batch: the result is the one the specification names, in whatever order the
      index was visited. */
  method MergeIncrementalSnapshot(baseline: Snapshot, batch: Batch, r: S.Registry, hash: int -> int, now: int) returns (result: Option<Snapshot>)
    ensures result == MergeResult(baseline, batch, r, hash, now)
  {
    var baselineOk := ValidateSnapshot(baseline, r);
    if !baselineOk {
      return None;
    }
    var batchOk := ValidateBatch(batch, r, hash);
    if !batchOk {
      return None;
    }
    var assignments := S.BuildAssignments(r, hash);
    BatchFacts(batch, r, hash);
    for i := 0 to |batch.accounts| {
      assert batch.accounts[i].key in Keys(batch.accounts);
      if assignments.value[batch.accounts[i].key] != batch.shard {
        assert false;
        return None;
      }
    }
    result := MergeSelected(baseline, batch, r, hash, now);
  }
}
