/** The balanced four-way split of the source registry and the six-hour slots that visit it.

    Registry keys are numbered by their rank in string order, so comparing numbers compares
    keys; `hash` is the 64-bit hash of a key. */
module Shards {
  import opened Basics
  import O = Ordering

  const SHARD_COUNT: int := 4
  const SLOT_SECONDS: int := 21600
  const DEFAULT_MAX_POSTS: int := 40

  datatype Source = Source(key: int, handle: int, category: int, enabled: bool, maxPosts: int)

  datatype Registry = Registry(defaultMaxPosts: int, accounts: seq<Source>)

  predicate ValidRegistry(r: Registry) {
    && 0 < r.defaultMaxPosts <= DEFAULT_MAX_POSTS
    && r.accounts != []
    && (forall i :: 0 <= i < |r.accounts| ==> 0 < r.accounts[i].maxPosts <= r.defaultMaxPosts)
    && (forall i, j :: 0 <= i < j < |r.accounts| ==> r.accounts[i].key != r.accounts[j].key)
    && (forall i, j :: 0 <= i < j < |r.accounts| ==> r.accounts[i].handle != r.accounts[j].handle)
  }

  function Enabled(r: Registry): set<Source> {
    set a | a in r.accounts && a.enabled
  }

  function EnabledKeys(r: Registry): set<int> {
    set a | a in r.accounts && a.enabled :: a.key
  }

  // ---------------------------------------------------------------------------
  // The assignment
  // ---------------------------------------------------------------------------

  /** Ascending hash, then ascending key. */
  function ByHash(hash: int -> int): int -> O.Key {
    k => O.Key(-hash(k), -k, 0, 0)
  }

  function Ordered(keys: set<int>, hash: int -> int): (r: seq<int>)
    ensures O.Keyed(keys, ByHash(hash)) && O.Lists(r, keys) && O.Descending(r, ByHash(hash))
  {
    O.SortDescSpec(keys, ByHash(hash));
    O.SortDesc(keys, ByHash(hash))
  }

  function IndexOf(s: seq<int>, k: int): (i: nat)
    requires k in s
    ensures i < |s| && s[i] == k
  {
    if s[0] == k then 0 else 1 + IndexOf(s[1..], k)
  }

  /** Position in hash order, modulo the number of shards. */
  function Assignment(keys: set<int>, hash: int -> int): map<int, int> {
    map k | k in keys :: IndexOf(Ordered(keys, hash), k) % SHARD_COUNT
  }

  function Members(keys: set<int>, hash: int -> int, shard: int): set<int> {
    set k | k in keys && Assignment(keys, hash)[k] == shard
  }

  /** The enabled keys in file order. */
  method CollectKeys(r: Registry) returns (collected: seq<int>)
    ensures (set k | k in collected) == EnabledKeys(r)
  {
    collected := [];
    for i := 0 to |r.accounts|
      invariant forall k :: k in collected <==> exists j :: 0 <= j < i && r.accounts[j].enabled && r.accounts[j].key == k
    {
      if r.accounts[i].enabled {
        collected := collected + [r.accounts[i].key];
      }
    }
    KeysCollected(r, set k | k in collected);
  }

  /** Position modulo the number of shards, for keys that occur once. */
  method AssignByPosition(ordered: seq<int>) returns (assignments: map<int, int>)
    requires forall i, j :: 0 <= i < j < |ordered| ==> ordered[i] != ordered[j]
    ensures assignments.Keys == set k | k in ordered
    ensures forall j :: 0 <= j < |ordered| ==> assignments[ordered[j]] == j % SHARD_COUNT
  {
    assignments := map[];
    for index := 0 to |ordered|
      invariant forall k :: k in assignments <==> k in ordered[..index]
      invariant forall j :: 0 <= j < index ==> ordered[j] in assignments && assignments[ordered[j]] == j % SHARD_COUNT
    {
      assert ordered[..index + 1] == ordered[..index] + [ordered[index]];
      assignments := assignments[ordered[index] := index % SHARD_COUNT];
    }
    assert ordered[..|ordered|] == ordered;
    forall k ensures k in assignments.Keys <==> k in (set k | k in ordered) { }
  }

  /** The assignment of a registry, built from the accounts in file order. */
  method BuildAssignments(r: Registry, hash: int -> int) returns (result: Option<map<int, int>>)
    ensures result == if ValidRegistry(r) then Some(Assignment(EnabledKeys(r), hash)) else None
  {
    if !ValidRegistry(r) {
      return None;
    }
    var collected := CollectKeys(r);
    var keys := set k | k in collected;
    var ordered := Ordered(keys, hash);
    OrderedDistinct(keys, hash);
    var assignments := AssignByPosition(ordered);
    AssignedIs(keys, hash, assignments);
    result := Some(assignments);
  }

  lemma KeysCollected(r: Registry, keys: set<int>)
    requires forall k :: k in keys <==> exists j :: 0 <= j < |r.accounts| && r.accounts[j].enabled && r.accounts[j].key == k
    ensures keys == EnabledKeys(r)
  {
    forall k ensures k in keys <==> k in EnabledKeys(r) {
      if k in EnabledKeys(r) {
        var a :| a in r.accounts && a.enabled && a.key == k;
        var j :| 0 <= j < |r.accounts| && r.accounts[j] == a;
        assert r.accounts[j].enabled && r.accounts[j].key == k;
      }
    }
  }

  lemma OrderedDistinct(keys: set<int>, hash: int -> int)
    ensures forall i, j :: 0 <= i < j < |Ordered(keys, hash)| ==> Ordered(keys, hash)[i] != Ordered(keys, hash)[j]
  {
    var s := Ordered(keys, hash);
    forall i, j | 0 <= i < j < |s| ensures s[i] != s[j] {
      assert O.Less(ByHash(hash)(s[j]), ByHash(hash)(s[i]));
    }
  }

  lemma AssignedIs(keys: set<int>, hash: int -> int, assignments: map<int, int>)
    requires assignments.Keys == set k | k in Ordered(keys, hash)
    requires forall j :: 0 <= j < |Ordered(keys, hash)| ==> assignments[Ordered(keys, hash)[j]] == j % SHARD_COUNT
    ensures assignments == Assignment(keys, hash)
  {
    var ordered := Ordered(keys, hash);
    forall k ensures k in assignments <==> k in keys { }
    forall k | k in keys ensures assignments[k] == Assignment(keys, hash)[k] {
      assert ordered[IndexOf(ordered, k)] == k;
    }
  }

  /** Two registries that list the same accounts in any order get the same assignment. */
  lemma OrderIndependent(r: Registry, q: Registry, hash: int -> int)
    requires ValidRegistry(r) && ValidRegistry(q) && multiset(r.accounts) == multiset(q.accounts)
    ensures Assignment(EnabledKeys(r), hash) == Assignment(EnabledKeys(q), hash)
  {
    forall a ensures a in r.accounts <==> a in q.accounts {
      assert a in r.accounts <==> a in multiset(r.accounts);
      assert a in q.accounts <==> a in multiset(q.accounts);
    }
    assert EnabledKeys(r) == EnabledKeys(q);
  }

  // ---------------------------------------------------------------------------
  // Balance
  // ---------------------------------------------------------------------------

  function Count(n: nat, shard: int): nat {
    if n == 0 then 0 else Count(n - 1, shard) + (if (n - 1) % SHARD_COUNT == shard then 1 else 0)
  }

  lemma {:induction false} CountIs(n: nat, shard: int)
    requires 0 <= shard < SHARD_COUNT
    ensures Count(n, shard) == (n + SHARD_COUNT - 1 - shard) / SHARD_COUNT
  {
    if n > 0 {
      CountIs(n - 1, shard);
    }
  }

  ghost function Front(s: seq<int>, n: nat, shard: int): set<int>
    requires n <= |s|
  {
    set i | 0 <= i < n && i % SHARD_COUNT == shard :: s[i]
  }

  lemma {:induction false} FrontSize(s: seq<int>, n: nat, shard: int)
    requires n <= |s| && forall i, j :: 0 <= i < j < |s| ==> s[i] != s[j]
    ensures |Front(s, n, shard)| == Count(n, shard)
  {
    if n > 0 {
      FrontSize(s, n - 1, shard);
      if (n - 1) % SHARD_COUNT == shard {
        assert Front(s, n, shard) == Front(s, n - 1, shard) + {s[n - 1]};
      } else {
        assert Front(s, n, shard) == Front(s, n - 1, shard);
      }
    }
  }

  lemma {:induction false} IndexOfUnique(s: seq<int>, i: nat)
    requires i < |s| && forall i, j :: 0 <= i < j < |s| ==> s[i] != s[j]
    ensures IndexOf(s, s[i]) == i
  { }

  lemma MembersSize(keys: set<int>, hash: int -> int, shard: int)
    requires 0 <= shard < SHARD_COUNT
    ensures |Members(keys, hash, shard)| == (|keys| + SHARD_COUNT - 1 - shard) / SHARD_COUNT
  {
    var s := Ordered(keys, hash);
    OrderedDistinct(keys, hash);
    forall k ensures k in Members(keys, hash, shard) <==> k in Front(s, |s|, shard) {
      if k in Front(s, |s|, shard) {
        var i :| 0 <= i < |s| && i % SHARD_COUNT == shard && s[i] == k;
        IndexOfUnique(s, i);
      }
    }
    assert Members(keys, hash, shard) == Front(s, |s|, shard);
    FrontSize(s, |s|, shard);
    CountIs(|s|, shard);
  }

  /** Every enabled account is in exactly one shard, and shard sizes differ by at most one. */
  lemma AssignmentIsBalancedPartition(keys: set<int>, hash: int -> int)
    ensures forall k :: k in keys ==> k in Assignment(keys, hash) && 0 <= Assignment(keys, hash)[k] < SHARD_COUNT
    ensures forall k :: k in keys <==> exists i :: 0 <= i < SHARD_COUNT && k in Members(keys, hash, i)
    ensures forall i, j :: i != j ==> Members(keys, hash, i) !! Members(keys, hash, j)
    ensures forall i, j :: 0 <= i < SHARD_COUNT && 0 <= j < SHARD_COUNT ==> |Members(keys, hash, i)| <= |Members(keys, hash, j)| + 1
  {
    forall k ensures k in keys <==> exists i :: 0 <= i < SHARD_COUNT && k in Members(keys, hash, i) {
      if k in keys {
        assert k in Members(keys, hash, Assignment(keys, hash)[k]);
      }
    }
    forall i, j | 0 <= i < SHARD_COUNT && 0 <= j < SHARD_COUNT ensures |Members(keys, hash, i)| <= |Members(keys, hash, j)| + 1 {
      MembersSize(keys, hash, i);
      MembersSize(keys, hash, j);
    }
  }

  // ---------------------------------------------------------------------------
  // Selecting a shard
  // ---------------------------------------------------------------------------

  function ByKey(): Source -> O.Key {
    (a: Source) => O.Key(-a.key, 0, 0, 0)
  }

  ghost function InShard(r: Registry, hash: int -> int, shard: int): set<Source> {
    set a | a in Enabled(r) && a.key in EnabledKeys(r) && Assignment(EnabledKeys(r), hash)[a.key] == shard
  }

  lemma SourcesKeyed(r: Registry, s: set<Source>)
    requires ValidRegistry(r) && forall a :: a in s ==> a in r.accounts
    ensures O.Keyed(s, ByKey())
  { }

  /** The accounts of one shard in key order; any other shard number is an error. */
  method SelectShardAccounts(r: Registry, hash: int -> int, shard: int) returns (selected: Option<seq<Source>>)
    ensures selected.Some? <==> 0 <= shard < SHARD_COUNT && ValidRegistry(r)
    ensures selected.Some? ==> O.Lists(selected.value, InShard(r, hash, shard)) && O.Descending(selected.value, ByKey())
    ensures selected.Some? ==> (set a | a in selected.value :: a.key) == Members(EnabledKeys(r), hash, shard)
  {
    if shard < 0 || shard >= SHARD_COUNT {
      return None;
    }
    var built := BuildAssignments(r, hash);
    if built.None? {
      return None;
    }
    var assignments := built.value;
    var found: set<Source> := {};
    for i := 0 to |r.accounts|
      invariant forall a :: a in found <==> a in r.accounts[..i] && a.enabled && assignments[a.key] == shard
    {
      var a := r.accounts[i];
      assert r.accounts[..i + 1] == r.accounts[..i] + [a];
      if a.enabled && assignments[a.key] == shard {
        found := found + {a};
      }
    }
    assert r.accounts[..|r.accounts|] == r.accounts;
    assert found == InShard(r, hash, shard);
    SourcesKeyed(r, found);
    O.SortDescSpec(found, ByKey());
    selected := Some(O.SortDesc(found, ByKey()));
    SelectedKeys(r, hash, shard, selected.value);
  }

  lemma SelectedKeys(r: Registry, hash: int -> int, shard: int, selected: seq<Source>)
    requires O.Lists(selected, InShard(r, hash, shard))
    ensures (set a | a in selected :: a.key) == Members(EnabledKeys(r), hash, shard)
  { }

  // ---------------------------------------------------------------------------
  // Slots
  // ---------------------------------------------------------------------------

  /** Go's remainder takes the sign of the dividend. */
  function Rem(a: int, b: int): int
    requires b > 0
  {
    a - b * TruncDiv(a, b)
  }

  function Slot(t: int): int {
    TruncDiv(t, SLOT_SECONDS)
  }

  /** Go's zero time, the first second of year 1. */
  const ZERO_TIME: int := -62_135_596_800

  function ShardOf(t: int): int {
    Rem(Slot(t), SHARD_COUNT)
  }

  /** The zero time stands for the present, `wall`. */
  function Effective(t: int, wall: int): int {
    if t == ZERO_TIME then wall else t
  }

  function ShardForTime(t: int, wall: int): int {
    ShardOf(Effective(t, wall))
  }

  /** A time before 1970 gives a shard number that is refused, unless its slot is a multiple
      of four. */
  lemma ShardForTimeRange(t: int, wall: int)
    ensures var u := Effective(t, wall);
      && (0 <= ShardForTime(t, wall) < 4 <==> u >= 0 || Slot(u) % 4 == 0)
      && (u >= 0 ==> ShardForTime(t, wall) == (u / (6 * 60 * 60)) % 4)
      && (u < 0 ==> ShardForTime(t, wall) <= 0)
  { }

  /** 1 if the i-th slot after t selects the shard. */
  function Hit(t: int, i: int, shard: int, wall: int): int {
    if ShardForTime(t + i * SLOT_SECONDS, wall) == shard then 1 else 0
  }

  /** How many of four consecutive slots, beginning at t, select the shard. */
  function Visits(t: int, shard: int, wall: int): int {
    Hit(t, 0, shard, wall) + Hit(t, 1, shard, wall) + Hit(t, 2, shard, wall) + Hit(t, 3, shard, wall)
  }

  lemma HitIs(t: int, i: int, shard: int, wall: int)
    requires t >= 0 && i >= 0
    ensures Hit(t, i, shard, wall) == if (t / SLOT_SECONDS + i) % SHARD_COUNT == shard then 1 else 0
  {
    assert (t + i * SLOT_SECONDS) / SLOT_SECONDS == t / SLOT_SECONDS + i;
    ShardForTimeRange(t + i * SLOT_SECONDS, wall);
  }

  lemma OneResidue(q: int, shard: int)
    requires 0 <= shard < SHARD_COUNT
    ensures (if q % SHARD_COUNT == shard then 1 else 0) + (if (q + 1) % SHARD_COUNT == shard then 1 else 0)
          + (if (q + 2) % SHARD_COUNT == shard then 1 else 0) + (if (q + 3) % SHARD_COUNT == shard then 1 else 0) == 1
  { }

  lemma VisitsOnce(t: int, shard: int, wall: int)
    requires t >= 0 && 0 <= shard < SHARD_COUNT
    ensures Visits(t, shard, wall) == 1
  {
    HitIs(t, 0, shard, wall);
    HitIs(t, 1, shard, wall);
    HitIs(t, 2, shard, wall);
    HitIs(t, 3, shard, wall);
    OneResidue(t / SLOT_SECONDS, shard);
  }

  /** A slot that begins before a shard's first slot after 1970 does not select that shard,
      unless it is the zero time. */
  lemma EarlySlot(t: int, i: int, shard: int, wall: int)
    requires t + i * SLOT_SECONDS < shard * SLOT_SECONDS && shard > 0 && t + i * SLOT_SECONDS != ZERO_TIME
    requires shard < SHARD_COUNT
    ensures Hit(t, i, shard, wall) == 0
  {
    var u := t + i * SLOT_SECONDS;
    assert Slot(u) < shard;
    ShardForTimeRange(u, wall);
  }

  /** Before 1970 some shard is not visited, whatever the present is. */
  lemma SomeShardMissed(t: int, wall: int) returns (shard: int)
    requires t < 0
    ensures 0 <= shard < SHARD_COUNT && Visits(t, shard, wall) == 0
  {
    if ZERO_TIME - 3 * SLOT_SECONDS <= t <= ZERO_TIME {
      shard := if ShardOf(wall) == 1 then 2 else 1;
      ZeroSlot(t, 0, shard, wall);
      ZeroSlot(t, 1, shard, wall);
      ZeroSlot(t, 2, shard, wall);
      ZeroSlot(t, 3, shard, wall);
    } else {
      shard := 3;
      EarlySlot(t, 0, 3, wall);
      EarlySlot(t, 1, 3, wall);
      EarlySlot(t, 2, 3, wall);
      EarlySlot(t, 3, 3, wall);
    }
  }

  lemma ZeroSlot(t: int, i: int, shard: int, wall: int)
    requires 0 < shard < SHARD_COUNT && ShardOf(wall) != shard && t <= ZERO_TIME && 0 <= i <= 3
    ensures Hit(t, i, shard, wall) == 0
  {
    if t + i * SLOT_SECONDS != ZERO_TIME {
      EarlySlot(t, i, shard, wall);
    }
  }

  /** Four consecutive slots select every enabled account exactly once when they do not begin
      before 1970; and only then, with at least four accounts, so that no shard is empty. */
  lemma FourSlotsCoverIff(keys: set<int>, hash: int -> int, t: int, wall: int)
    ensures t >= 0 ==> forall k :: k in keys ==> Visits(t, Assignment(keys, hash)[k], wall) == 1
    ensures |keys| >= SHARD_COUNT && t < 0 ==> exists k :: k in keys && Visits(t, Assignment(keys, hash)[k], wall) == 0
  {
    AssignmentIsBalancedPartition(keys, hash);
    if t >= 0 {
      forall k | k in keys ensures Visits(t, Assignment(keys, hash)[k], wall) == 1 {
        VisitsOnce(t, Assignment(keys, hash)[k], wall);
      }
    } else if |keys| >= SHARD_COUNT {
      var shard := SomeShardMissed(t, wall);
      MembersSize(keys, hash, shard);
      var k := O.Element(Members(keys, hash, shard));
      assert k in keys && Visits(t, Assignment(keys, hash)[k], wall) == 0;
    }
  }
}
