/** Curated topic traversal: half-day buckets counted back from an anchor, a seeded shuffle
    inside each bucket, and a loop that jumps from one occupied bucket to the next.

    Times are nanoseconds since the Unix epoch. In UTC, AddDate by whole days is a fixed
    number of nanoseconds. */
module Topic {
  import opened Basics
  import opened Ordering

  const SECOND: int := 1_000_000_000
  const HALF_DAY_SECONDS: int := 12 * 60 * 60
  const HALF_DAY: int := HALF_DAY_SECONDS * SECOND
  const YEAR_ONE_UNIX: int := -62_135_596_800
  const ZERO_TIME: int := YEAR_ONE_UNIX * SECOND

  function Unix(t: int): int {
    t / SECOND
  }

  function Nanosecond(t: int): int {
    t % SECOND
  }

  function MaxBucketIndex(anchor: int): int {
    TruncDiv(Unix(anchor) - YEAR_ONE_UNIX, HALF_DAY_SECONDS)
  }

  /** The half-open range (start, end] of a bucket. */
  function BucketRange(anchor: int, bucket: int): Result<(int, int)> {
    if anchor == ZERO_TIME || bucket < 0 || bucket > MaxBucketIndex(anchor) then Err
    else
      var wholeDays := anchor - TruncDiv(bucket, 2) * 2 * HALF_DAY;
      var end := if bucket % 2 != 0 then wholeDays - HALF_DAY else wholeDays;
      Ok((end - HALF_DAY, end))
  }

  /** Whole seconds back from the anchor, with a borrow when the nanoseconds do not cover it. */
  function BucketIndex(anchor: int, source: int): Result<int> {
    if anchor == ZERO_TIME || source > anchor then Err
    else
      var delta := Unix(anchor) - Unix(source) - (if Nanosecond(anchor) < Nanosecond(source) then 1 else 0);
      if delta < 0 then Err else Ok(TruncDiv(delta, HALF_DAY_SECONDS))
  }

  /** Exactly the bucket numbers up to the bound have a range, and it is their half day. */
  lemma BucketRangeIs(anchor: int, bucket: int)
    ensures BucketRange(anchor, bucket) ==
      if anchor != ZERO_TIME && 0 <= bucket <= MaxBucketIndex(anchor)
      then Ok((anchor - (bucket + 1) * 43_200_000_000_000, anchor - bucket * 43_200_000_000_000)) else Err
  {
    assert bucket == 2 * (bucket / 2) + bucket % 2;
  }

  /** The index is defined exactly for times not after a set anchor; it names the only bucket
      whose range holds the time, and is in range for every time from year 1 on. */
  lemma BucketIndexCorrect(anchor: int, source: int)
    ensures BucketIndex(anchor, source).Ok? <==> anchor != ZERO_TIME && source <= anchor
    ensures BucketIndex(anchor, source).Ok? ==>
      var b := BucketIndex(anchor, source).value;
      && b >= 0
      && (ZERO_TIME <= source ==> b <= MaxBucketIndex(anchor))
      && forall c | BucketRange(anchor, c).Ok? :: (BucketRange(anchor, c).value.0 < source <= BucketRange(anchor, c).value.1 <==> c == b)
  {
    if anchor != ZERO_TIME && source <= anchor {
      IndexIsFloor(anchor, source);
      var b := BucketIndex(anchor, source).value;
      forall c | BucketRange(anchor, c).Ok? ensures BucketRange(anchor, c).value.0 < source <= BucketRange(anchor, c).value.1 <==> c == b {
        BucketRangeIs(anchor, c);
      }
    }
  }

  lemma IndexIsFloor(anchor: int, source: int)
    requires anchor != ZERO_TIME && source <= anchor
    ensures BucketIndex(anchor, source).Ok?
    ensures BucketIndex(anchor, source).value * HALF_DAY <= anchor - source < (BucketIndex(anchor, source).value + 1) * HALF_DAY
    ensures BucketIndex(anchor, source).value >= 0
    ensures ZERO_TIME <= source ==> BucketIndex(anchor, source).value <= MaxBucketIndex(anchor)
  {
    var delta := Unix(anchor) - Unix(source) - (if Nanosecond(anchor) < Nanosecond(source) then 1 else 0);
    assert anchor == Unix(anchor) * SECOND + Nanosecond(anchor);
    assert source == Unix(source) * SECOND + Nanosecond(source);
    assert delta * SECOND <= anchor - source < (delta + 1) * SECOND;
    if ZERO_TIME <= source {
      assert delta <= Unix(anchor) - YEAR_ONE_UNIX;
    }
  }

  function HalfDaysBack(anchor: int, source: int): int {
    (anchor - source) / HALF_DAY
  }

  lemma IndexIsHalfDays(anchor: int, source: int)
    requires anchor != ZERO_TIME && source <= anchor
    ensures BucketIndex(anchor, source) == Ok(HalfDaysBack(anchor, source))
  {
    IndexIsFloor(anchor, source);
  }

  lemma HalfDaysOrder(anchor: int, source: int, other: int, bucket: int)
    ensures source <= anchor - (bucket + 1) * HALF_DAY <==> HalfDaysBack(anchor, source) > bucket
    ensures source <= anchor - bucket * HALF_DAY <==> HalfDaysBack(anchor, source) >= bucket
    ensures source <= other ==> HalfDaysBack(anchor, source) >= HalfDaysBack(anchor, other)
  {
  }

  // ---------------------------------------------------------------------------
  // The relation and the flat order
  // ---------------------------------------------------------------------------

  /** A mirror row joined with its account and post. The table is keyed by its unique local post id. */
  datatype MirrorRow = MirrorRow(account: int, enabled: bool, active: bool, importedAt: int, sourceCreatedAt: int, isPublic: bool)

  datatype Row = Row(bucket: int, shuffle: int, id: int)

  datatype Position = Position(bucket: int, shuffle: int, id: int)

  /** One traversal: the database, the topic's source accounts, the anchor and the seeded hash. */
  datatype Traversal = Traversal(table: map<int, MirrorRow>, accounts: set<int>, anchor: int, hash: int -> int)

  predicate Candidate(t: Traversal, id: int) {
    id in t.table &&
    var r := t.table[id];
    r.account in t.accounts && r.enabled && r.active && r.importedAt <= t.anchor && r.isPublic
  }

  /** ORDER BY bucket, shuffle_key DESC, id DESC. */
  function RowKey(r: Row): Key {
    Key(-r.bucket, r.shuffle, r.id, 0)
  }

  function PositionKey(p: Position): Key {
    Key(-p.bucket, p.shuffle, p.id, 0)
  }

  function BucketOf(t: Traversal, id: int): int
    requires id in t.table
  {
    HalfDaysBack(t.anchor, t.table[id].sourceCreatedAt)
  }

  /** Every candidate not after the anchor, with the bucket its time falls in. */
  ghost function Flat(t: Traversal): (s: set<Row>)
    ensures Keyed(s, RowKey)
  {
    set id | id in t.table && Candidate(t, id) && t.table[id].sourceCreatedAt <= t.anchor ::
      Row(BucketOf(t, id), t.hash(id), id)
  }

  ghost function After(t: Traversal, cursor: Option<Position>): (s: set<Row>)
    ensures Keyed(s, RowKey) && s <= Flat(t)
  {
    match cursor
    case None => Flat(t)
    case Some(p) => Below(Flat(t), RowKey, PositionKey(p))
  }

  // ---------------------------------------------------------------------------
  // The two queries
  // ---------------------------------------------------------------------------

  /** topicBucketCandidatesQuery, without its ORDER BY and LIMIT. */
  function BucketRows(t: Traversal, start: int, end: int, bucket: int, after: Option<Position>): (s: set<Row>)
    ensures Keyed(s, RowKey)
  {
    set id | id in t.table && Candidate(t, id) && start < t.table[id].sourceCreatedAt <= end
        && (after.None? || t.hash(id) < after.value.shuffle || (t.hash(id) == after.value.shuffle && id < after.value.id)) ::
      Row(bucket, t.hash(id), id)
  }

  function BucketQuery(t: Traversal, bucket: int, after: Option<Position>, limit: nat): Result<seq<Row>> {
    match BucketRange(t.anchor, bucket)
    case Err => Err
    case Ok((start, end)) => Ok(Top(BucketRows(t, start, end, bucket, after), RowKey, limit))
  }

  function SourceTimes(t: Traversal, notAfter: int): set<int> {
    set id | id in t.table && Candidate(t, id) && t.table[id].sourceCreatedAt <= notAfter :: t.table[id].sourceCreatedAt
  }

  function TimeKey(x: int): Key {
    Key(x, 0, 0, 0)
  }

  /** topicNextBucketLookupQuery: SELECT MAX(source_created_at), turned into a bucket index. */
  function NextBucketQuery(t: Traversal, bucket: int): Result<Option<int>> {
    match BucketRange(t.anchor, bucket)
    case Err => Err
    case Ok((start, _)) =>
      var times := SourceTimes(t, start);
      if times == {} then Ok(None)
      else
        match BucketIndex(t.anchor, Greatest(times, TimeKey))
        case Err => Err
        case Ok(b) => Ok(Some(b))
  }

  ghost predicate Anchored(t: Traversal) {
    t.anchor > ZERO_TIME
  }

  ghost predicate ValidBucket(t: Traversal, bucket: int) {
    0 <= bucket <= MaxBucketIndex(t.anchor)
  }

  ghost function InBucket(s: set<Row>, bucket: int): set<Row> {
    set r | r in s && r.bucket == bucket
  }

  ghost function Upto(s: set<Row>, bucket: int): set<Row> {
    set r | r in s && r.bucket < bucket
  }

  ghost function Beyond(s: set<Row>, bucket: int): set<Row> {
    set r | r in s && r.bucket > bucket
  }

  /** The rows a bucket query ranges over are the rows of the flat order in that bucket. */
  lemma BucketRowsAreFlat(t: Traversal, bucket: int)
    requires Anchored(t) && ValidBucket(t, bucket)
    ensures BucketRange(t.anchor, bucket).Ok?
    ensures
      var range := BucketRange(t.anchor, bucket).value;
      BucketRows(t, range.0, range.1, bucket, None) == InBucket(Flat(t), bucket)
  { }

  lemma BucketRowsAfter(t: Traversal, bucket: int, cursor: Option<Position>, after: Option<Position>)
    requires Anchored(t) && ValidBucket(t, bucket)
    requires cursor.Some? ==> bucket >= cursor.value.bucket
    requires after == if cursor.Some? && bucket == cursor.value.bucket then cursor else None
    ensures BucketRange(t.anchor, bucket).Ok?
    ensures
      var range := BucketRange(t.anchor, bucket).value;
      BucketRows(t, range.0, range.1, bucket, after) == InBucket(After(t, cursor), bucket)
  {
    BucketRowsAreFlat(t, bucket);
    var range := BucketRange(t.anchor, bucket).value;
    var all := BucketRows(t, range.0, range.1, bucket, None);
    var some := BucketRows(t, range.0, range.1, bucket, after);
    if after.Some? {
      assert some == set r | r in all && (r.shuffle < after.value.shuffle || (r.shuffle == after.value.shuffle && r.id < after.value.id));
    }
  }

  /** The MAX subquery ranges over the rows of all later buckets. */
  lemma LaterTimes(t: Traversal, bucket: int, cursor: Option<Position>, r: Row)
    requires Anchored(t) && ValidBucket(t, bucket)
    requires cursor.Some? ==> bucket >= cursor.value.bucket
    requires r.id in t.table && r == Row(BucketOf(t, r.id), t.hash(r.id), r.id)
    ensures r in Beyond(After(t, cursor), bucket)
       <==> Candidate(t, r.id) && t.table[r.id].sourceCreatedAt <= t.anchor - (bucket + 1) * HALF_DAY
  { }

  /** The next bucket is the next occupied one: strictly later, and nothing lies between. */
  lemma NextBucketCorrect(t: Traversal, bucket: int, cursor: Option<Position>)
    requires Anchored(t) && ValidBucket(t, bucket)
    requires cursor.Some? ==> bucket >= cursor.value.bucket
    ensures NextBucketQuery(t, bucket).Ok?
    ensures
      var rest := Beyond(After(t, cursor), bucket);
      match NextBucketQuery(t, bucket).value
      case None => rest == {}
      case Some(b) => b > bucket && InBucket(rest, b) != {} && Upto(rest, b) == {}
  {
    BucketRangeIs(t.anchor, bucket);
    var times := SourceTimes(t, t.anchor - (bucket + 1) * HALF_DAY);
    var rest := Beyond(After(t, cursor), bucket);
    forall r | r in rest ensures r.id in t.table && t.table[r.id].sourceCreatedAt in times {
      LaterTimes(t, bucket, cursor, r);
    }
    if times != {} {
      var m := Greatest(times, TimeKey);
      IndexIsHalfDays(t.anchor, m);
      FirstLater(t, bucket, cursor, times, m);
    }
  }

  lemma FirstLater(t: Traversal, bucket: int, cursor: Option<Position>, times: set<int>, m: int)
    requires Anchored(t) && ValidBucket(t, bucket)
    requires cursor.Some? ==> bucket >= cursor.value.bucket
    requires times == SourceTimes(t, t.anchor - (bucket + 1) * HALF_DAY)
    requires m in times && forall x | x in times :: x <= m
    ensures
      var rest := Beyond(After(t, cursor), bucket);
      var b := HalfDaysBack(t.anchor, m);
      b > bucket && InBucket(rest, b) != {} && Upto(rest, b) == {}
  {
    var rest := Beyond(After(t, cursor), bucket);
    var id :| id in t.table && Candidate(t, id) && t.table[id].sourceCreatedAt == m;
    var first := Row(BucketOf(t, id), t.hash(id), id);
    HalfDaysOrder(t.anchor, m, m, bucket);
    LaterTimes(t, bucket, cursor, first);
    assert first in InBucket(rest, first.bucket);
    forall r | r in rest ensures r.bucket >= first.bucket {
      LaterTimes(t, bucket, cursor, r);
      assert t.table[r.id].sourceCreatedAt in times;
      HalfDaysOrder(t.anchor, t.table[r.id].sourceCreatedAt, m, 0);
    }
  }

  // ---------------------------------------------------------------------------
  // loadTopicTraversalCandidates
  // ---------------------------------------------------------------------------

  ghost predicate GoodCursor(t: Traversal, cursor: Option<Position>) {
    cursor.Some? ==> ValidBucket(t, cursor.value.bucket)
  }

  ghost function InRange(t: Traversal, s: set<Row>): set<Row> {
    set r | r in s && r.bucket <= MaxBucketIndex(t.anchor)
  }

  /** Reading one bucket extends the listing of the flat order, and completes it when full. */
  lemma ReadBucket(all: set<Row>, rows: seq<Row>, bucket: int, limit: nat, remaining: nat)
    requires Keyed(all, RowKey) && rows == SortDesc(Upto(all, bucket), RowKey)
    requires |rows| + remaining == limit
    ensures
      var batch := Top(InBucket(all, bucket), RowKey, remaining);
      && |batch| <= remaining
      && (|batch| < remaining ==> rows + batch == SortDesc(Upto(all, bucket + 1), RowKey))
      && (|batch| == remaining ==> rows + batch == Top(all, RowKey, limit) && |Upto(all, bucket + 1)| >= limit)
  {
    var done, here, both, rest := Upto(all, bucket), InBucket(all, bucket), Upto(all, bucket + 1), Beyond(all, bucket);
    assert both == done + here && all == both + rest;
    SortSplit(both, done, here, RowKey);
    SortSplit(all, both, rest, RowKey);
    assert |SortDesc(both, RowKey)| == |both| by { SortDescSpec(both, RowKey); }
    TakeThree(rows, SortDesc(here, RowKey), SortDesc(rest, RowKey), remaining);
  }

  lemma TakeThree<T>(p: seq<T>, q: seq<T>, r: seq<T>, n: nat)
    ensures |Take(q, n)| <= n
    ensures |Take(q, n)| < n ==> p + Take(q, n) == p + q
    ensures |Take(q, n)| == n ==> p + Take(q, n) == Take(p + q + r, |p| + n) && |p + q| >= |p| + n
  { }

  /** No row after the cursor lies in an earlier bucket. */
  lemma StartsEmpty(t: Traversal, cursor: Option<Position>, bucket: int)
    requires Anchored(t) && bucket == if cursor.Some? then cursor.value.bucket else 0
    ensures Upto(After(t, cursor), bucket) == {}
  { }

  /** Jumping over empty buckets skips no row and leaves fewer rows ahead. */
  lemma JumpSkipsNothing(all: set<Row>, bucket: int, next: int)
    requires next > bucket && Upto(Beyond(all, bucket), next) == {} && InBucket(Beyond(all, bucket), next) != {}
    ensures Upto(all, next) == Upto(all, bucket + 1)
    ensures InBucket(all, next) != {}
    ensures |Beyond(all, next)| < |Beyond(all, bucket)|
  {
    forall r | r in Upto(all, next) ensures r in Upto(all, bucket + 1) {
      assert r !in Upto(Beyond(all, bucket), next);
    }
    var x :| x in InBucket(Beyond(all, bucket), next);
    assert x in InBucket(all, next);
    assert Beyond(all, next) <= Beyond(all, bucket) - {x};
    SubsetSize(Beyond(all, next), Beyond(all, bucket) - {x});
  }

  /** What the traversal must return. */
  ghost predicate Outcome(t: Traversal, cursor: Option<Position>, limit: nat, r: Result<seq<Row>>) {
    var all := After(t, cursor);
    && (r.Ok? ==> r.value == Top(all, RowKey, limit))
    && (r.Err? <==> |InRange(t, all)| < limit && InRange(t, all) != all)
  }

  /** The loop state: everything before the current bucket has been read, and the current
      bucket is past the last valid one only if a row is waiting there. */
  ghost predicate Reading(t: Traversal, cursor: Option<Position>, limit: nat, rows: seq<Row>, remaining: nat, bucket: int, continuation: Option<Position>) {
    var all := After(t, cursor);
    && |rows| + remaining == limit
    && 0 <= bucket && (cursor.Some? ==> bucket >= cursor.value.bucket)
    && continuation == (if cursor.Some? && bucket == cursor.value.bucket then cursor else None)
    && rows == SortDesc(Upto(all, bucket), RowKey)
    && (bucket > MaxBucketIndex(t.anchor) ==> InBucket(all, bucket) != {} && InRange(t, all) == Upto(all, bucket))
  }

  lemma ReadFails(t: Traversal, cursor: Option<Position>, limit: nat, rows: seq<Row>, remaining: nat, bucket: int, continuation: Option<Position>)
    requires Anchored(t) && Reading(t, cursor, limit, rows, remaining, bucket, continuation) && remaining > 0
    requires !ValidBucket(t, bucket)
    ensures Outcome(t, cursor, limit, Err)
  {
    var all := After(t, cursor);
    var fits := Upto(all, bucket);
    assert |rows| == |fits| by { SortDescSpec(fits, RowKey); }
    var x :| x in InBucket(all, bucket);
    assert x in all && x !in fits;
  }

  lemma ReadFills(t: Traversal, cursor: Option<Position>, limit: nat, rows: seq<Row>, bucket: int, batch: seq<Row>)
    requires ValidBucket(t, bucket)
    requires rows + batch == Top(After(t, cursor), RowKey, limit) && |Upto(After(t, cursor), bucket + 1)| >= limit
    ensures Outcome(t, cursor, limit, Ok(rows + batch))
  {
    SubsetSize(Upto(After(t, cursor), bucket + 1), InRange(t, After(t, cursor)));
  }

  lemma ReadEnds(t: Traversal, cursor: Option<Position>, limit: nat, found: seq<Row>, bucket: int)
    requires ValidBucket(t, bucket) && |found| <= limit
    requires found == SortDesc(Upto(After(t, cursor), bucket + 1), RowKey) && Beyond(After(t, cursor), bucket) == {}
    ensures Outcome(t, cursor, limit, Ok(found))
  {
    var all := After(t, cursor);
    forall r | r in all ensures r in Upto(all, bucket + 1) && r in InRange(t, all) {
      assert r !in Beyond(all, bucket);
    }
    assert Upto(all, bucket + 1) == all && InRange(t, all) == all;
  }

  lemma ReadJumps(t: Traversal, cursor: Option<Position>, limit: nat, found: seq<Row>, remaining: nat, bucket: int, next: int)
    requires ValidBucket(t, bucket) && |found| + remaining == limit
    requires cursor.Some? ==> bucket >= cursor.value.bucket
    requires found == SortDesc(Upto(After(t, cursor), bucket + 1), RowKey)
    requires next > bucket && Upto(Beyond(After(t, cursor), bucket), next) == {} && InBucket(Beyond(After(t, cursor), bucket), next) != {}
    ensures Reading(t, cursor, limit, found, remaining, next, None)
    ensures |Beyond(After(t, cursor), next)| < |Beyond(After(t, cursor), bucket)|
  {
    var all := After(t, cursor);
    JumpSkipsNothing(all, bucket, next);
    if next > MaxBucketIndex(t.anchor) {
      forall r | r in InRange(t, all) ensures r in Upto(all, next) {
      }
      assert InRange(t, all) >= Upto(all, bucket + 1);
    }
  }

  /** The walk fails exactly when it must enter a bucket before year 1; otherwise it returns
      the next `limit` rows of the flat order. The did-not-advance error is unreachable. */
  method LoadTraversalCandidates(t: Traversal, cursor: Option<Position>, limit: nat) returns (r: Result<seq<Row>>)
    requires Anchored(t) && GoodCursor(t, cursor)
    ensures Outcome(t, cursor, limit, r)
  {
    var rows: seq<Row> := [];
    var remaining: nat := limit;
    var bucket := if cursor.Some? then cursor.value.bucket else 0;
    var continuation := cursor;
    StartsEmpty(t, cursor, bucket);
    while remaining > 0
      invariant Reading(t, cursor, limit, rows, remaining, bucket, continuation)
      invariant remaining == 0 ==> limit == 0
      decreases |Beyond(After(t, cursor), bucket)|
    {
      ReadBucket(After(t, cursor), rows, bucket, limit, remaining);
      var query := BucketQuery(t, bucket, continuation, remaining);
      if query.Err? {
        ReadFails(t, cursor, limit, rows, remaining, bucket, continuation);
        return Err;
      }
      BucketRowsAfter(t, bucket, cursor, continuation);
      var batch := query.value;
      if remaining == |batch| {
        ReadFills(t, cursor, limit, rows, bucket, batch);
        return Ok(rows + batch);
      }
      rows := rows + batch;
      remaining := remaining - |batch|;
      NextBucketCorrect(t, bucket, cursor);
      var next := NextBucketQuery(t, bucket);
      if next.value.None? {
        ReadEnds(t, cursor, limit, rows, bucket);
        return Ok(rows);
      }
      if next.value.value <= bucket {
        assert false;
        return Err;
      }
      ReadJumps(t, cursor, limit, rows, remaining, bucket, next.value.value);
      bucket := next.value.value;
      continuation := None;
    }
    r := Ok(rows);
    assert rows == [] == Top(After(t, cursor), RowKey, 0);
  }

  // ---------------------------------------------------------------------------
  // One page, and a client that follows next_cursor to the end
  // ---------------------------------------------------------------------------

  datatype Page = Page(items: seq<Row>, next: Option<Position>)

  function PositionOf(r: Row): Position {
    Position(r.bucket, r.shuffle, r.id)
  }

  function Visible(rows: seq<Row>, visible: set<int>): seq<Row> {
    if rows == [] then []
    else
      var last := |rows| - 1;
      Visible(rows[..last], visible) + if rows[last].id in visible then [rows[last]] else []
  }

  /** The cursor moves to the last row shown, or past the whole page when none was. */
  function PageOf(rows: seq<Row>, visible: set<int>, limit: nat): Page
    requires limit > 0
  {
    var page := Take(rows, limit);
    var shown := Visible(page, visible);
    Page(shown, if |rows| <= limit then None else Some(PositionOf(if shown != [] then shown[|shown| - 1] else page[limit - 1])))
  }

  /** The request must enter a bucket before year 1 to fill the page: some row lies beyond the
      last valid bucket, and the rows within it do not suffice. */
  ghost predicate TooDeep(t: Traversal, cursor: Option<Position>, limit: nat) {
    |InRange(t, After(t, cursor))| <= limit && InRange(t, After(t, cursor)) != After(t, cursor)
  }

  /** What a request answers. */
  ghost function PageResult(t: Traversal, cursor: Option<Position>, limit: nat, visible: set<int>): Result<Page>
    requires limit > 0
  {
    if TooDeep(t, cursor, limit) then Err else Ok(PageOf(Top(After(t, cursor), RowKey, limit + 1), visible, limit))
  }

  /** Hydrates the first `limit` of the loaded rows and picks the cursor row. */
  method BuildPage(found: seq<Row>, limit: nat, visible: set<int>) returns (page: Page)
    requires limit > 0
    ensures page == PageOf(found, visible, limit)
  {
    var rows := found;
    var hasMore := |rows| > limit;
    if hasMore {
      rows := rows[..limit];
    }
    var returned: seq<Row> := [];
    for i := 0 to |rows|
      invariant returned == Visible(rows[..i], visible)
    {
      assert rows[..i + 1][..i] == rows[..i];
      if rows[i].id in visible {
        returned := returned + [rows[i]];
      }
    }
    assert rows[..|rows|] == rows == Take(found, limit);
    var next := None;
    if hasMore {
      next := Some(PositionOf(if |returned| > 0 then returned[|returned| - 1] else rows[|rows| - 1]));
    }
    page := Page(returned, next);
  }

  /** Loads limit + 1 candidates; a cursor needs a positive post id and a valid bucket. */
  method LoadTopicPostsPage(t: Traversal, cursor: Option<Position>, limit: int, visible: set<int>) returns (r: Result<Page>)
    requires Anchored(t) && GoodCursor(t, cursor) && 0 !in t.table
    ensures r == if limit <= 0 then Err else PageResult(t, cursor, limit, visible)
    ensures r.Ok? ==> GoodCursor(t, r.value.next)
  {
    if limit <= 0 {
      return Err;
    }
    var found := LoadTraversalCandidates(t, cursor, limit + 1);
    if found.Err? {
      return Err;
    }
    var page := BuildPage(found.value, limit, visible);
    NextCursorIsGood(t, cursor, limit, visible);
    r := Ok(page);
  }

  lemma {:induction false} VisibleMembers(rows: seq<Row>, visible: set<int>)
    ensures forall r :: r in Visible(rows, visible) <==> r in rows && r.id in visible
  {
    if rows != [] {
      var last := |rows| - 1;
      VisibleMembers(rows[..last], visible);
      assert rows == rows[..last] + [rows[last]];
    }
  }

  lemma {:induction false} VisibleSpec(rows: seq<Row>, visible: set<int>)
    requires Descending(rows, RowKey)
    ensures Descending(Visible(rows, visible), RowKey)
    ensures forall r :: r in Visible(rows, visible) <==> r in rows && r.id in visible
  {
    VisibleMembers(rows, visible);
    if rows != [] {
      var last := |rows| - 1;
      var front := Visible(rows[..last], visible);
      VisibleSpec(rows[..last], visible);
      forall i | 0 <= i < |front| ensures Less(RowKey(rows[last]), RowKey(front[i])) {
        assert front[i] in rows[..last];
      }
      ConcatDescending(front, [rows[last]], RowKey);
    }
  }

  /** Rows left out by LIMIT come after every row it kept. */
  lemma TakeIsAhead(all: set<Row>, n: nat, kept: Row, left: Row)
    requires Keyed(all, RowKey) && kept in Top(all, RowKey, n) && left in all && left !in Top(all, RowKey, n)
    ensures kept in all && Less(RowKey(left), RowKey(kept))
  {
    var flat := SortDesc(all, RowKey);
    SortDescSpec(all, RowKey);
    var j :| 0 <= j < |flat| && flat[j] == left;
    var i :| 0 <= i < |Top(all, RowKey, n)| && Top(all, RowKey, n)[i] == kept;
    assert forall k | 0 <= k < |Top(all, RowKey, n)| :: Top(all, RowKey, n)[k] == flat[k];
  }

  lemma PageItems(all: set<Row>, limit: nat, visible: set<int>)
    requires limit > 0 && Keyed(all, RowKey)
    ensures
      var items := PageOf(Top(all, RowKey, limit + 1), visible, limit).items;
      && Descending(items, RowKey)
      && forall r :: r in items <==> r in Top(all, RowKey, limit) && r.id in visible
  {
    assert Take(Top(all, RowKey, limit + 1), limit) == Top(all, RowKey, limit);
    SortDescSpec(all, RowKey);
    VisibleSpec(Top(all, RowKey, limit), visible);
  }

  /** The row a page's cursor names. */
  lemma PageCursor(all: set<Row>, limit: nat, visible: set<int>) returns (x: Row)
    requires limit > 0 && Keyed(all, RowKey)
    requires PageOf(Top(all, RowKey, limit + 1), visible, limit).next.Some?
    ensures
      var page := PageOf(Top(all, RowKey, limit + 1), visible, limit);
      && x in Top(all, RowKey, limit) && page.next == Some(PositionOf(x))
      && if page.items == [] then x == Top(all, RowKey, limit)[|Top(all, RowKey, limit)| - 1] else x == page.items[|page.items| - 1]
  {
    var rows := Top(all, RowKey, limit + 1);
    var page := PageOf(rows, visible, limit);
    var kept := Top(all, RowKey, limit);
    assert Take(rows, limit) == kept && |kept| == limit;
    PageItems(all, limit, visible);
    x := if page.items != [] then page.items[|page.items| - 1] else kept[limit - 1];
  }

  lemma TopMember(all: set<Row>, n: nat, x: Row)
    requires Keyed(all, RowKey) && x in Top(all, RowKey, n)
    ensures x in all
  {
    SortDescSpec(all, RowKey);
  }

  lemma LastIsLowest(items: seq<Row>, x: Row)
    requires Descending(items, RowKey) && (items != [] ==> x == items[|items| - 1])
    ensures forall r | r in items :: r == x || Less(RowKey(x), RowKey(r))
  { }

  /** The cursor row was read, no shown row comes after it, and every visible row was shown
      or comes after it. */
  lemma PageAdvances(all: set<Row>, limit: nat, visible: set<int>) returns (x: Row)
    requires limit > 0 && Keyed(all, RowKey)
    requires PageOf(Top(all, RowKey, limit + 1), visible, limit).next.Some?
    ensures
      var page := PageOf(Top(all, RowKey, limit + 1), visible, limit);
      && x in all && page.next == Some(PositionOf(x))
      && (forall r | r in page.items :: r == x || Less(RowKey(x), RowKey(r)))
      && (forall r | r in all && r.id in visible :: r in page.items || Less(RowKey(r), RowKey(x)))
  {
    x := PageCursor(all, limit, visible);
    TopMember(all, limit, x);
    PageItems(all, limit, visible);
    var items := PageOf(Top(all, RowKey, limit + 1), visible, limit).items;
    LastIsLowest(items, x);
    forall r | r in all && r.id in visible ensures r in items || Less(RowKey(r), RowKey(x)) {
      if r !in Top(all, RowKey, limit) { TakeIsAhead(all, limit, x, r); }
    }
  }

  lemma AfterRow(t: Traversal, cursor: Option<Position>, x: Row)
    requires x in After(t, cursor)
    ensures After(t, Some(PositionOf(x))) == Below(After(t, cursor), RowKey, RowKey(x))
    ensures |After(t, Some(PositionOf(x)))| < |After(t, cursor)|
  {
    var rest := After(t, Some(PositionOf(x)));
    assert rest <= After(t, cursor) - {x};
    SubsetSize(rest, After(t, cursor) - {x});
  }

  /** A page that is answered ends within the last valid bucket. */
  lemma TopIsInRange(t: Traversal, all: set<Row>, limit: nat, x: Row)
    requires Keyed(all, RowKey) && (|InRange(t, all)| > limit || InRange(t, all) == all) && x in Top(all, RowKey, limit)
    ensures x in InRange(t, all)
  {
    var hi := InRange(t, all);
    SortSplit(all, hi, all - hi, RowKey);
    SortDescSpec(hi, RowKey);
    if hi == all {
      TopMember(all, limit, x);
    } else {
      TakeConcat(SortDesc(hi, RowKey), SortDesc(all - hi, RowKey), limit);
      assert x in Take(SortDesc(hi, RowKey), limit);
    }
  }

  lemma PageInRange(t: Traversal, cursor: Option<Position>, limit: nat, visible: set<int>)
    requires limit > 0 && !TooDeep(t, cursor, limit)
    ensures forall r | r in PageOf(Top(After(t, cursor), RowKey, limit + 1), visible, limit).items :: r in InRange(t, After(t, cursor))
  {
    PageItems(After(t, cursor), limit, visible);
    forall r | r in PageOf(Top(After(t, cursor), RowKey, limit + 1), visible, limit).items ensures r in InRange(t, After(t, cursor)) {
      TopIsInRange(t, After(t, cursor), limit, r);
    }
  }

  /** The next cursor a page hands out is one the next request accepts. */
  lemma NextCursorIsGood(t: Traversal, cursor: Option<Position>, limit: nat, visible: set<int>)
    requires Anchored(t) && limit > 0
    ensures var r := PageResult(t, cursor, limit, visible);
      r.Ok? ==> GoodCursor(t, r.value.next)
  {
    var r := PageResult(t, cursor, limit, visible);
    if r.Ok? && r.value.next.Some? {
      var x := PageCursor(After(t, cursor), limit, visible);
      TopIsInRange(t, After(t, cursor), limit, x);
    }
  }

  /** A client that follows the cursors: what it was shown, and whether it came to the end or
      was stopped by a request that failed. Visibility may change between requests. */
  datatype Journey = Journey(items: seq<Row>, completed: bool)

  ghost function Walk(t: Traversal, cursor: Option<Position>, limit: nat, visible: nat -> set<int>, request: nat): Journey
    requires limit > 0
    decreases |After(t, cursor)|
  {
    match PageResult(t, cursor, limit, visible(request))
    case Err => Journey([], false)
    case Ok(page) =>
      if page.next.None? then Journey(page.items, true)
      else
        WalkAdvances(t, cursor, limit, visible(request));
        var rest := Walk(t, page.next, limit, visible, request + 1);
        Journey(page.items + rest.items, rest.completed)
  }

  lemma WalkAdvances(t: Traversal, cursor: Option<Position>, limit: nat, visible: set<int>)
    requires limit > 0
    ensures
      var page := PageOf(Top(After(t, cursor), RowKey, limit + 1), visible, limit);
      page.next.Some? ==> |After(t, page.next)| < |After(t, cursor)|
  {
    if PageOf(Top(After(t, cursor), RowKey, limit + 1), visible, limit).next.Some? {
      var x := PageAdvances(After(t, cursor), limit, visible);
      AfterRow(t, cursor, x);
    }
  }

  /** A walk comes to its end if and only if no candidate lies before year 1. */
  lemma {:induction false} WalkCompletesIff(t: Traversal, cursor: Option<Position>, limit: nat, visible: nat -> set<int>, request: nat)
    requires limit > 0
    ensures Walk(t, cursor, limit, visible, request).completed <==> InRange(t, After(t, cursor)) == After(t, cursor)
    decreases |After(t, cursor)|
  {
    var all := After(t, cursor);
    if !TooDeep(t, cursor, limit) {
      var page := PageOf(Top(all, RowKey, limit + 1), visible(request), limit);
      if page.next.Some? {
        RestInRange(t, cursor, limit, visible(request));
        WalkAdvances(t, cursor, limit, visible(request));
        WalkCompletesIff(t, page.next, limit, visible, request + 1);
      } else {
        SubsetSize(InRange(t, all), all);
        SortDescSpec(all, RowKey);
      }
    }
  }

  /** What lies too deep is never passed by a page that is answered. */
  lemma RestInRange(t: Traversal, cursor: Option<Position>, limit: nat, visible: set<int>)
    requires limit > 0 && !TooDeep(t, cursor, limit)
    requires PageOf(Top(After(t, cursor), RowKey, limit + 1), visible, limit).next.Some?
    ensures var next := PageOf(Top(After(t, cursor), RowKey, limit + 1), visible, limit).next;
      InRange(t, After(t, next)) == After(t, next) <==> InRange(t, After(t, cursor)) == After(t, cursor)
  {
    var all := After(t, cursor);
    var page := PageOf(Top(all, RowKey, limit + 1), visible, limit);
    var x := PageCursor(all, limit, visible);
    TopMember(all, limit, x);
    AfterRow(t, cursor, x);
    TopIsInRange(t, all, limit, x);
    if InRange(t, all) != all {
      var y :| y in all && y !in InRange(t, all);
      assert y in After(t, page.next);
    }
  }

  /** Over a fixed database no row is shown twice or out of order, and none from before year 1,
      whether or not the walk comes to its end. */
  lemma {:induction false} WalkOrdered(t: Traversal, cursor: Option<Position>, limit: nat, visible: nat -> set<int>, request: nat)
    requires limit > 0
    ensures Descending(Walk(t, cursor, limit, visible, request).items, RowKey)
    ensures forall r | r in Walk(t, cursor, limit, visible, request).items :: r in InRange(t, After(t, cursor))
    decreases |After(t, cursor)|
  {
    var all := After(t, cursor);
    if !TooDeep(t, cursor, limit) {
      var page := PageOf(Top(all, RowKey, limit + 1), visible(request), limit);
      PageItems(all, limit, visible(request));
      PageInRange(t, cursor, limit, visible(request));
      if page.next.Some? {
        var x := PageAdvances(all, limit, visible(request));
        AfterRow(t, cursor, x);
        var tail := Walk(t, page.next, limit, visible, request + 1).items;
        WalkOrdered(t, page.next, limit, visible, request + 1);
        forall r | r in tail ensures r in InRange(t, all) && Less(RowKey(r), RowKey(x)) {
          assert r in InRange(t, After(t, page.next));
        }
        ConcatAround(page.items, tail, x, RowKey);
      }
    }
  }

  ghost predicate AlwaysVisible(r: Row, visible: nat -> set<int>, request: nat) {
    forall k: nat | request <= k :: r.id in visible(k)
  }

  /** In a walk that comes to its end every row that all requests can see is shown, even when
      whole pages vanish. */
  lemma {:induction false} WalkComplete(t: Traversal, cursor: Option<Position>, limit: nat, visible: nat -> set<int>, request: nat, r: Row)
    requires limit > 0 && r in After(t, cursor) && AlwaysVisible(r, visible, request)
    requires Walk(t, cursor, limit, visible, request).completed
    ensures r in Walk(t, cursor, limit, visible, request).items
    decreases |After(t, cursor)|
  {
    var all := After(t, cursor);
    var page := PageOf(Top(all, RowKey, limit + 1), visible(request), limit);
    if page.next.None? {
      PageItems(all, limit, visible(request));
      assert r in Top(all, RowKey, limit) by {
        SortDescSpec(all, RowKey);
        assert Top(all, RowKey, limit) == SortDesc(all, RowKey);
      }
    } else {
      var x := PageAdvances(all, limit, visible(request));
      AfterRow(t, cursor, x);
      if r !in page.items {
        WalkComplete(t, page.next, limit, visible, request + 1, r);
      }
    }
  }

  /** A walk that is stopped has shown every row that all requests can see, but for at most
      `limit` of those within the last valid bucket. */
  lemma {:induction false} StoppedWalkMissesFew(t: Traversal, cursor: Option<Position>, limit: nat, visible: nat -> set<int>, request: nat)
    requires limit > 0 && !Walk(t, cursor, limit, visible, request).completed
    ensures |Missed(t, cursor, limit, visible, request)| <= limit
    decreases |After(t, cursor)|
  {
    var all := After(t, cursor);
    var missed := Missed(t, cursor, limit, visible, request);
    if TooDeep(t, cursor, limit) {
      SubsetSize(missed, InRange(t, all));
    } else {
      var page := PageOf(Top(all, RowKey, limit + 1), visible(request), limit);
      var x := PageAdvances(all, limit, visible(request));
      AfterRow(t, cursor, x);
      StoppedWalkMissesFew(t, page.next, limit, visible, request + 1);
      var later := Missed(t, page.next, limit, visible, request + 1);
      forall r | r in missed ensures r in later { }
      SubsetSize(missed, later);
    }
  }

  /** The rows in range that all requests can see and the walk did not show. */
  ghost function Missed(t: Traversal, cursor: Option<Position>, limit: nat, visible: nat -> set<int>, request: nat): set<Row>
    requires limit > 0
  {
    set r | r in InRange(t, After(t, cursor)) && AlwaysVisible(r, visible, request) && r !in Walk(t, cursor, limit, visible, request).items
  }

  /** With one fixed set of visible posts a walk that comes to its end is the flat order
      restricted to it. */
  lemma TopicWalkFixed(t: Traversal, cursor: Option<Position>, limit: nat, visible: set<int>)
    requires limit > 0
    ensures InRange(t, After(t, cursor)) == After(t, cursor) ==>
      Walk(t, cursor, limit, _ => visible, 0) == Journey(Visible(SortDesc(After(t, cursor), RowKey), visible), true)
  {
    WalkCompletesIff(t, cursor, limit, _ => visible, 0);
    if InRange(t, After(t, cursor)) == After(t, cursor) {
      var s := set r | r in After(t, cursor) && r.id in visible;
      WalkLists(t, cursor, limit, visible, s);
      VisibleLists(After(t, cursor), visible, s);
      ListingUnique(Walk(t, cursor, limit, _ => visible, 0).items, Visible(SortDesc(After(t, cursor), RowKey), visible), s, RowKey);
    }
  }

  lemma WalkLists(t: Traversal, cursor: Option<Position>, limit: nat, visible: set<int>, s: set<Row>)
    requires limit > 0 && s == set r | r in After(t, cursor) && r.id in visible
    requires Walk(t, cursor, limit, _ => visible, 0).completed
    ensures Lists(Walk(t, cursor, limit, _ => visible, 0).items, s) && Descending(Walk(t, cursor, limit, _ => visible, 0).items, RowKey)
  {
    var w := Walk(t, cursor, limit, _ => visible, 0).items;
    WalkOrdered(t, cursor, limit, _ => visible, 0);
    OnlyVisible(t, cursor, limit, visible, 0);
    forall r | r in s ensures r in w { WalkComplete(t, cursor, limit, _ => visible, 0, r); }
    assert s == set r | r in w;
    DescendingLength(w, s, RowKey);
  }

  lemma {:induction false} VisibleLists(all: set<Row>, visible: set<int>, s: set<Row>)
    requires Keyed(all, RowKey) && s == set r | r in all && r.id in visible
    ensures Lists(Visible(SortDesc(all, RowKey), visible), s) && Descending(Visible(SortDesc(all, RowKey), visible), RowKey)
  {
    var v := Visible(SortDesc(all, RowKey), visible);
    SortDescSpec(all, RowKey);
    VisibleSpec(SortDesc(all, RowKey), visible);
    assert s == set r | r in v;
    DescendingLength(v, s, RowKey);
  }

  lemma {:induction false} OnlyVisible(t: Traversal, cursor: Option<Position>, limit: nat, visible: set<int>, request: nat)
    requires limit > 0
    ensures forall r | r in Walk(t, cursor, limit, _ => visible, request).items :: r.id in visible
    decreases |After(t, cursor)|
  {
    if !TooDeep(t, cursor, limit) {
      var page := PageOf(Top(After(t, cursor), RowKey, limit + 1), visible, limit);
      PageItems(After(t, cursor), limit, visible);
      if page.next.Some? {
        WalkAdvances(t, cursor, limit, visible);
        OnlyVisible(t, page.next, limit, visible, request + 1);
      }
    }
  }

  /** One candidate half a day before year 1, seen from an anchor at the epoch. */
  function BeforeYearOne(): Traversal {
    Traversal(map[7 := MirrorRow(1, true, true, 0, ZERO_TIME - HALF_DAY, true)], {1}, 0, _ => 0)
  }

  /** For it every first request fails, whatever its limit, and the walk shows nothing. */
  lemma {:induction false} BeforeYearOneFails(limit: nat, visible: nat -> set<int>)
    requires limit > 0
    ensures After(BeforeYearOne(), None) == {Row(1438325, 0, 7)}
    ensures PageResult(BeforeYearOne(), None, limit, visible(0)) == Err
    ensures Walk(BeforeYearOne(), None, limit, visible, 0) == Journey([], false)
  {
    var t := BeforeYearOne();
    assert BucketOf(t, 7) == 1438325;
    assert MaxBucketIndex(t.anchor) == 1438324;
    forall r ensures r in After(t, None) <==> r == Row(1438325, 0, 7) { }
    assert InRange(t, After(t, None)) == {};
  }
}
