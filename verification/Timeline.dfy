/** The following timeline: its two SQL queries, one page of results, and a whole walk.

    Timestamps are nullable columns and are counted from Go's zero time, so `At(0)` is the
    zero time and a scanned NULL is also read back as zero. */
module Timeline {
  import opened Basics
  import opened Ordering

  datatype Stamp = Null | At(t: int)

  datatype ActivityType = Original | Repost

  datatype Activity = Activity(kind: ActivityType, at: Stamp, source: int, post: int, actor: int)

  datatype PostRow = PostRow(author: int, createdAt: Stamp, isReply: bool, deleted: bool, isPublic: bool)

  datatype RepostRow = RepostRow(user: int, post: int, createdAt: Stamp)

  /** The five tables the queries read. Pairs in `follows` and `mutes` are (subject, object). */
  datatype Database = Database(
    follows: set<(int, int)>,
    mutes: set<(int, int)>,
    posts: map<int, PostRow>,
    reposts: map<int, RepostRow>,
    activeUsers: set<int>)

  function Rank(kind: ActivityType): int {
    match kind
    case Original => 1
    case Repost => 2
  }

  /** ORDER BY activity_at DESC, activity_rank DESC, source_id DESC; PostgreSQL puts NULL first. */
  function SortKey(a: Activity): Key {
    match a.at
    case Null => Key(1, 0, Rank(a.kind), a.source)
    case At(t) => Key(0, t, Rank(a.kind), a.source)
  }

  /** The unique index on (user_id, post_id) that the repost upsert relies on. */
  ghost predicate RepostsUnique(db: Database) {
    forall r, s | r in db.reposts && s in db.reposts ::
      db.reposts[r].user == db.reposts[s].user && db.reposts[r].post == db.reposts[s].post ==> r == s
  }

  predicate PublicPost(db: Database, id: int) {
    id in db.posts && !db.posts[id].deleted && db.posts[id].isPublic && db.posts[id].author in db.activeUsers
  }

  function OriginalOf(db: Database, id: int): Activity
    requires id in db.posts
  {
    Activity(Original, db.posts[id].createdAt, id, id, db.posts[id].author)
  }

  function RepostOf(db: Database, id: int): Activity
    requires id in db.reposts
  {
    Activity(Repost, db.reposts[id].createdAt, id, db.reposts[id].post, db.reposts[id].user)
  }

  // ---------------------------------------------------------------------------
  // The simple meaning of the timeline
  // ---------------------------------------------------------------------------

  ghost predicate SeesOriginal(db: Database, viewer: int, id: int) {
    && PublicPost(db, id)
    && !db.posts[id].isReply
    && (viewer, db.posts[id].author) in db.follows
    && (viewer, db.posts[id].author) !in db.mutes
  }

  ghost predicate SeesRepost(db: Database, viewer: int, id: int) {
    && id in db.reposts
    && PublicPost(db, db.reposts[id].post)
    && db.reposts[id].user in db.activeUsers
    && (viewer, db.reposts[id].user) in db.follows
    && (viewer, db.posts[db.reposts[id].post].author) !in db.mutes
    && (viewer, db.reposts[id].user) !in db.mutes
  }

  /** Rows that are what the tables say; such rows are identified by their sort key. */
  ghost predicate FromTables(db: Database, s: set<Activity>) {
    forall a | a in s ::
      match a.kind
      case Original => a.source in db.posts && a == OriginalOf(db, a.source)
      case Repost => a.source in db.reposts && a == RepostOf(db, a.source)
  }

  ghost function Originals(db: Database, viewer: int): (s: set<Activity>)
    ensures FromTables(db, s) && Keyed(s, SortKey)
  {
    set id | id in db.posts && SeesOriginal(db, viewer, id) :: OriginalOf(db, id)
  }

  ghost function Reposts(db: Database, viewer: int): (s: set<Activity>)
    ensures FromTables(db, s) && Keyed(s, SortKey)
  {
    set id | id in db.reposts && SeesRepost(db, viewer, id) :: RepostOf(db, id)
  }

  /** Everything followed accounts did that this viewer may see. */
  ghost function Activities(db: Database, viewer: int): (s: set<Activity>)
    ensures FromTables(db, s) && Keyed(s, SortKey)
  {
    Originals(db, viewer) + Reposts(db, viewer)
  }

  /** DISTINCT ON (post_id) ... ORDER BY post_id, <sort key> DESC. */
  ghost function Latest(s: set<Activity>): (r: set<Activity>)
    ensures r <= s
  {
    set a | a in s && Wins(s, a)
  }

  ghost predicate Wins(s: set<Activity>, a: Activity) {
    forall b | b in s && b.post == a.post :: b == a || Less(SortKey(b), SortKey(a))
  }

  /** One activity per post: the best one. */
  ghost function Winners(db: Database, viewer: int): (s: set<Activity>)
    ensures FromTables(db, s) && Keyed(s, SortKey)
  {
    Latest(Activities(db, viewer))
  }

  ghost function FollowingTimeline(db: Database, viewer: int): seq<Activity> {
    SortDesc(Winners(db, viewer), SortKey)
  }

  /** Each post with any activity has exactly one row in DISTINCT ON. */
  lemma WinnerExists(s: set<Activity>, a: Activity) returns (w: Activity)
    requires Keyed(s, SortKey) && a in s
    ensures w in Latest(s) && w.post == a.post
    ensures w == a || Less(SortKey(a), SortKey(w))
  {
    var same := set b | b in s && b.post == a.post;
    assert a in same;
    w := GreatestExists(same, SortKey);
  }

  // ---------------------------------------------------------------------------
  // followingTimelineFirstPageSQL
  // ---------------------------------------------------------------------------

  ghost function Following(db: Database, viewer: int): set<int> {
    set f | f in db.follows && f.0 == viewer :: f.1
  }

  /** The first lateral subquery, before its LIMIT. */
  ghost function OriginalsBy(db: Database, viewer: int, user: int): (s: set<Activity>)
    ensures FromTables(db, s) && Keyed(s, SortKey)
  {
    set id | id in db.posts && db.posts[id].author == user && !db.posts[id].isReply && PublicPost(db, id)
        && (viewer, db.posts[id].author) !in db.mutes :: OriginalOf(db, id)
  }

  /** The second lateral subquery, before its LIMIT. */
  ghost function RepostsBy(db: Database, viewer: int, user: int): (s: set<Activity>)
    ensures FromTables(db, s) && Keyed(s, SortKey)
  {
    set id | id in db.reposts && db.reposts[id].user == user && PublicPost(db, db.reposts[id].post)
        && (viewer, db.posts[db.reposts[id].post].author) !in db.mutes
        && (viewer, db.reposts[id].user) !in db.mutes :: RepostOf(db, id)
  }

  ghost function LateralOriginals(db: Database, viewer: int, n: nat): set<Activity> {
    set user, a | user in Following(db, viewer) && a in Top(OriginalsBy(db, viewer, user), SortKey, n) :: a
  }

  ghost function LateralReposts(db: Database, viewer: int, n: nat): set<Activity> {
    set user, a | user in Following(db, viewer) && user in db.activeUsers
        && a in Top(RepostsBy(db, viewer, user), SortKey, n) :: a
  }

  ghost function FirstPageActivities(db: Database, viewer: int, n: nat): (s: set<Activity>)
    ensures s <= Activities(db, viewer)
  {
    LateralSubset(db, viewer, n);
    LateralOriginals(db, viewer, n) + LateralReposts(db, viewer, n)
  }

  ghost function FirstPageQuery(db: Database, viewer: int, n: nat): seq<Activity> {
    Top(Latest(FirstPageActivities(db, viewer, n)), SortKey, n)
  }

  lemma TopIsMember(s: set<Activity>, n: nat, a: Activity)
    requires Keyed(s, SortKey) && a in Top(s, SortKey, n)
    ensures a in s
  {
    SortDescSpec(s, SortKey);
  }

  lemma LateralSubset(db: Database, viewer: int, n: nat)
    ensures LateralOriginals(db, viewer, n) + LateralReposts(db, viewer, n) <= Activities(db, viewer)
  {
    forall a | a in LateralOriginals(db, viewer, n) ensures a in Originals(db, viewer) {
      var user :| user in Following(db, viewer) && a in Top(OriginalsBy(db, viewer, user), SortKey, n);
      TopIsMember(OriginalsBy(db, viewer, user), n, a);
    }
    forall a | a in LateralReposts(db, viewer, n) ensures a in Reposts(db, viewer) {
      var user :| user in Following(db, viewer) && user in db.activeUsers && a in Top(RepostsBy(db, viewer, user), SortKey, n);
      TopIsMember(RepostsBy(db, viewer, user), n, a);
    }
  }

  /** An activity that a lateral LIMIT cut off is preceded by n visible activities on n different posts. */
  lemma CutOffActivity(db: Database, viewer: int, n: nat, a: Activity) returns (ahead: set<Activity>)
    requires RepostsUnique(db)
    requires a in Activities(db, viewer) && a !in FirstPageActivities(db, viewer, n)
    ensures |ahead| >= n && ahead <= Activities(db, viewer)
    ensures forall b | b in ahead :: Less(SortKey(a), SortKey(b))
    ensures forall b, c | b in ahead && c in ahead && b.post == c.post :: b == c
  {
    assert (viewer, a.actor) in db.follows && a.actor in Following(db, viewer);
    match a.kind
    case Original =>
      var mine := OriginalsBy(db, viewer, a.actor);
      assert a in Originals(db, viewer) && a in mine;
      CutOffHasManyAbove(mine, SortKey, n, a);
      ahead := Above(mine, SortKey, SortKey(a));
      assert ahead <= Originals(db, viewer);
    case Repost =>
      var mine := RepostsBy(db, viewer, a.actor);
      assert a in Reposts(db, viewer) && a in mine;
      CutOffHasManyAbove(mine, SortKey, n, a);
      ahead := Above(mine, SortKey, SortKey(a));
      assert ahead <= Reposts(db, viewer);
  }

  ghost function WinnerOf(s: set<Activity>, a: Activity): (w: Activity)
    requires Keyed(s, SortKey) && a in s
    ensures w in Latest(s) && w.post == a.post && (w == a || Less(SortKey(a), SortKey(w)))
  {
    WinnerExistsFact(s, a);
    var w :| w in Latest(s) && w.post == a.post && (w == a || Less(SortKey(a), SortKey(w)));
    w
  }

  lemma WinnerExistsFact(s: set<Activity>, a: Activity)
    requires Keyed(s, SortKey) && a in s
    ensures exists w :: w in Latest(s) && w.post == a.post && (w == a || Less(SortKey(a), SortKey(w)))
  {
    var w := WinnerExists(s, a);
  }

  /** Activities on n different posts ahead of a position put n winners ahead of it. */
  lemma WinnersAhead(s: set<Activity>, ahead: set<Activity>, k: Key)
    requires Keyed(s, SortKey) && ahead <= s
    requires forall b | b in ahead :: Less(k, SortKey(b))
    requires forall b, c | b in ahead && c in ahead && b.post == c.post :: b == c
    ensures |Above(Latest(s), SortKey, k)| >= |ahead|
  {
    var f := (b: Activity) => if b in ahead then WinnerOf(s, b) else b;
    InjectionSize(ahead, Above(Latest(s), SortKey, k), f);
  }

  /** Truncating every actor to n rows of each kind does not change the global first n posts. */
  lemma FirstPageCorrect(db: Database, viewer: int, n: nat)
    requires RepostsUnique(db)
    ensures FirstPageQuery(db, viewer, n) == Take(FollowingTimeline(db, viewer), n)
  {
    var all, cut := Activities(db, viewer), FirstPageActivities(db, viewer, n);
    var lost := Latest(all) - cut;
    if lost == {} {
      assert forall a | a in Latest(all) :: a !in lost;
      NothingLost(all, cut);
    } else {
      var x := GreatestExists(lost, SortKey);
      var ahead := CutOffActivity(db, viewer, n, x);
      WinnersAhead(all, ahead, SortKey(x));
      WinnersAgreeAbove(all, cut, x);
      TopAgree(Latest(all), Latest(cut), SortKey, n, SortKey(x));
    }
  }

  lemma NothingLost(all: set<Activity>, cut: set<Activity>)
    requires Keyed(all, SortKey) && cut <= all && Latest(all) <= cut
    ensures Latest(cut) == Latest(all)
  {
    forall a | a in Latest(cut) ensures a in Latest(all) {
      var w := WinnerExists(all, a);
    }
  }

  lemma WinnersAgreeAbove(all: set<Activity>, cut: set<Activity>, x: Activity)
    requires Keyed(all, SortKey) && cut <= all
    requires IsGreatest(Latest(all) - cut, SortKey, x)
    ensures Above(Latest(all), SortKey, SortKey(x)) == Above(Latest(cut), SortKey, SortKey(x))
  {
    forall a | a in Above(Latest(cut), SortKey, SortKey(x)) ensures a in Latest(all) {
      var w := WinnerExists(all, a);
      assert w in cut;
    }
  }

  // ---------------------------------------------------------------------------
  // followingTimelineCursorSQL
  // ---------------------------------------------------------------------------

  datatype Cursor = Cursor(at: int, kind: ActivityType, source: int)

  function CursorKey(c: Cursor): Key {
    Key(0, c.at, Rank(c.kind), c.source)
  }

  /** A row of originals FULL JOIN reposts. */
  datatype Matched = Matched(original: Option<Activity>, repost: Option<Activity>)

  ghost function FullJoin(originals: set<Activity>, reposts: set<Activity>): set<Matched> {
    (set o, r | o in originals && r in reposts && r.post == o.post :: Matched(Some(o), Some(r))) +
    (set o | o in originals && !Joins(o, reposts) :: Matched(Some(o), None)) +
    (set r | r in reposts && !Joins(r, originals) :: Matched(None, Some(r)))
  }

  ghost predicate Joins(a: Activity, others: set<Activity>) {
    exists b :: b in others && b.post == a.post
  }

  /** The use_repost column. */
  predicate UseRepost(m: Matched) {
    m.repost.Some? && (
      m.original.None? ||
      m.repost.value.at.Null? ||
      (m.original.value.at.At? && m.repost.value.at.t >= m.original.value.at.t))
  }

  function Pick(m: Matched): Activity
    requires m.original.Some? || m.repost.Some?
  {
    if UseRepost(m) then m.repost.value else m.original.value
  }

  ghost function JoinedLatest(db: Database, viewer: int): set<Activity> {
    set m | m in FullJoin(Originals(db, viewer), Latest(Reposts(db, viewer))) :: Pick(m)
  }

  /** The WHERE clause; a comparison with NULL does not hold. */
  predicate AfterCursor(a: Activity, c: Cursor) {
    a.at.At? && (
      a.at.t < c.at ||
      (a.at.t == c.at && (Rank(a.kind) < Rank(c.kind) || (Rank(a.kind) == Rank(c.kind) && a.source < c.source))))
  }

  ghost function CursorQuery(db: Database, viewer: int, c: Cursor, n: nat): seq<Activity> {
    JoinedLatestCorrect(db, viewer);
    Top(RowsAfter(JoinedLatest(db, viewer), c), SortKey, n)
  }

  ghost function RowsAfter(s: set<Activity>, c: Cursor): set<Activity> {
    set a | a in s && AfterCursor(a, c)
  }

  /** The full join picks the same row for every post as DISTINCT ON over all activities. */
  lemma JoinedLatestCorrect(db: Database, viewer: int)
    ensures JoinedLatest(db, viewer) == Winners(db, viewer)
  {
    var os, rs := Originals(db, viewer), Reposts(db, viewer);
    forall a | a in JoinedLatest(db, viewer) ensures a in Winners(db, viewer) {
      var m :| m in FullJoin(os, Latest(rs)) && a == Pick(m);
      PickWins(db, viewer, m);
    }
    forall a | a in Winners(db, viewer) ensures a in JoinedLatest(db, viewer) {
      var m := JoinRowOf(db, viewer, a);
      PickWins(db, viewer, m);
      assert Pick(m).post == a.post;
    }
  }

  lemma JoinRowOf(db: Database, viewer: int, a: Activity) returns (m: Matched)
    requires a in Activities(db, viewer)
    ensures m in FullJoin(Originals(db, viewer), Latest(Reposts(db, viewer)))
    ensures Pick(m).post == a.post
  {
    var os, rs := Originals(db, viewer), Latest(Reposts(db, viewer));
    if a.kind == Original {
      assert a in os;
      if r :| r in rs && r.post == a.post {
        m := Matched(Some(a), Some(r));
      } else {
        m := Matched(Some(a), None);
      }
    } else {
      var r := WinnerExists(Reposts(db, viewer), a);
      if o :| o in os && o.post == r.post {
        m := Matched(Some(o), Some(r));
      } else {
        m := Matched(None, Some(r));
      }
    }
  }

  lemma PickWins(db: Database, viewer: int, m: Matched)
    requires m in FullJoin(Originals(db, viewer), Latest(Reposts(db, viewer)))
    ensures Pick(m) in Winners(db, viewer)
  {
    var a := Pick(m);
    var os, rs := Originals(db, viewer), Reposts(db, viewer);
    forall b | b in Activities(db, viewer) && b.post == a.post ensures b == a || Less(SortKey(b), SortKey(a)) {
      if b in os {
        assert m.original == Some(b);
      } else {
        var w := WinnerExists(rs, b);
        assert m.repost.Some? && m.repost.value.post == w.post;
        assert m.repost == Some(w);
      }
    }
  }

  /** A cursor page is the next n rows of the simple timeline. */
  lemma CursorQueryCorrect(db: Database, viewer: int, c: Cursor, n: nat)
    ensures CursorQuery(db, viewer, c, n) == Top(Below(Winners(db, viewer), SortKey, CursorKey(c)), SortKey, n)
  {
    JoinedLatestCorrect(db, viewer);
    assert RowsAfter(JoinedLatest(db, viewer), c) == Below(Winners(db, viewer), SortKey, CursorKey(c));
  }

  // ---------------------------------------------------------------------------
  // buildTimelinePageResponse
  // ---------------------------------------------------------------------------

  datatype Entity = Entity(id: int, body: int)

  /** What the two detail queries of one request returned. */
  datatype Details = Details(posts: map<int, Entity>, actors: map<int, Entity>)

  datatype Item = Item(activity: Activity, actor: Entity, post: Entity)

  datatype Page = Page(items: seq<Item>, next: Option<Cursor>)

  predicate WellFormed(a: Activity) {
    a.at.At? && a.at.t != 0 && a.source != 0 && a.post != 0 && a.actor != 0
  }

  predicate Accepts(a: Activity, d: Details) {
    && WellFormed(a)
    && (a.post in d.posts ==>
          && d.posts[a.post].id == a.post
          && (a.actor in d.actors ==> d.actors[a.actor].id == a.actor))
  }

  ghost predicate AcceptsAll(rows: seq<Activity>, d: Details) {
    forall i | 0 <= i < |rows| :: Accepts(rows[i], d)
  }

  /** The rows whose post and actor were still there, in row order. */
  function Hydrate(rows: seq<Activity>, d: Details): seq<Item> {
    if rows == [] then []
    else
      var a := rows[|rows| - 1];
      Hydrate(rows[..|rows| - 1], d) +
        if a.post in d.posts && a.actor in d.actors then [Item(a, d.actors[a.actor], d.posts[a.post])] else []
  }

  /** The item shows the very post and actor its row names, as the details hold them. */
  predicate Carries(item: Item, d: Details) {
    && item.post.id == item.activity.post && item.actor.id == item.activity.actor
    && item.activity.post in d.posts && item.post == d.posts[item.activity.post]
    && item.activity.actor in d.actors && item.actor == d.actors[item.activity.actor]
  }

  lemma {:induction false} HydratedCarry(rows: seq<Activity>, d: Details)
    requires AcceptsAll(rows, d)
    ensures forall item :: item in Hydrate(rows, d) ==> Carries(item, d)
  {
    if rows != [] {
      var last := |rows| - 1;
      assert AcceptsAll(rows[..last], d) && Accepts(rows[last], d);
      HydratedCarry(rows[..last], d);
    }
  }

  function CursorOf(a: Activity): Cursor
    requires a.at.At?
  {
    Cursor(a.at.t, a.kind, a.source)
  }

  ghost function PageOf(rows: seq<Activity>, d: Details, limit: nat): Result<Page>
    requires limit > 0
  {
    var scanned := Take(rows, limit);
    if !AcceptsAll(scanned, d) then Err
    else Ok(Page(Hydrate(scanned, d), if |rows| > limit then Some(CursorOf(rows[limit - 1])) else None))
  }

  method BuildTimelinePageResponse(rows: seq<Activity>, d: Details, limit: int) returns (r: Result<Page>)
    ensures limit <= 0 ==> r.Err?
    ensures limit > 0 ==> r == PageOf(rows, d, limit)
    ensures r.Ok? ==> forall item :: item in r.value.items ==> Carries(item, d)
  {
    if limit <= 0 {
      return Err;
    }
    var hasMore := |rows| > limit;
    var scanned := if hasMore then rows[..limit] else rows;
    assert scanned == Take(rows, limit);
    var items: seq<Item> := [];
    for i := 0 to |scanned|
      invariant items == Hydrate(scanned[..i], d)
      invariant forall j | 0 <= j < i :: Accepts(scanned[j], d)
      invariant forall item :: item in items ==> Carries(item, d)
    {
      var row := scanned[i];
      assert scanned[..i + 1][..i] == scanned[..i];
      if !WellFormed(row) {
        return Err;
      }
      if row.post !in d.posts {
        continue;
      }
      if d.posts[row.post].id != row.post {
        return Err;
      }
      if row.actor !in d.actors {
        continue;
      }
      if d.actors[row.actor].id != row.actor {
        return Err;
      }
      items := items + [Item(row, d.actors[row.actor], d.posts[row.post])];
    }
    assert scanned[..|scanned|] == scanned;
    r := Ok(Page(items, if hasMore then Some(CursorOf(scanned[|scanned| - 1])) else None));
  }

  // ---------------------------------------------------------------------------
  // A client that follows next_cursor to the end
  // ---------------------------------------------------------------------------

  ghost function Remaining(db: Database, viewer: int, cursor: Option<Cursor>): (s: set<Activity>)
    ensures Keyed(s, SortKey)
  {
    match cursor
    case None => Winners(db, viewer)
    case Some(c) => Below(Winners(db, viewer), SortKey, CursorKey(c))
  }

  ghost function PageRows(db: Database, viewer: int, cursor: Option<Cursor>, limit: nat): seq<Activity> {
    match cursor
    case None => FirstPageQuery(db, viewer, limit + 1)
    case Some(c) => CursorQuery(db, viewer, c, limit + 1)
  }

  lemma PageRowsCorrect(db: Database, viewer: int, cursor: Option<Cursor>, limit: nat)
    requires RepostsUnique(db)
    ensures PageRows(db, viewer, cursor, limit) == Top(Remaining(db, viewer, cursor), SortKey, limit + 1)
  {
    match cursor
    case None => FirstPageCorrect(db, viewer, limit + 1);
    case Some(c) => CursorQueryCorrect(db, viewer, c, limit + 1);
  }

  /** Every request of the walk may see different details: rows may vanish between its queries. */
  ghost function Walk(db: Database, viewer: int, cursor: Option<Cursor>, limit: nat, details: nat -> Details, page: nat): Result<seq<Page>>
    requires RepostsUnique(db) && limit > 0
    decreases |Remaining(db, viewer, cursor)|
  {
    var p := PageOf(PageRows(db, viewer, cursor, limit), details(page), limit);
    if p.Err? then Err
    else if p.value.next.None? then Ok([p.value])
    else
      NextCursorAdvances(db, viewer, cursor, limit);
      match Walk(db, viewer, p.value.next, limit, details, page + 1)
      case Err => Err
      case Ok(rest) => Ok([p.value] + rest)
  }

  /** The reference: cut one flat list in pages of `limit` rows. */
  ghost function Chunk(rows: seq<Activity>, limit: nat, details: nat -> Details, page: nat): Result<seq<Page>>
    requires limit > 0
    decreases |rows|
  {
    var p := PageOf(rows, details(page), limit);
    if p.Err? then Err
    else if p.value.next.None? then Ok([p.value])
    else
      match Chunk(rows[limit..], limit, details, page + 1)
      case Err => Err
      case Ok(rest) => Ok([p.value] + rest)
  }

  lemma NextCursorAdvances(db: Database, viewer: int, cursor: Option<Cursor>, limit: nat)
    requires RepostsUnique(db) && limit > 0
    requires |PageRows(db, viewer, cursor, limit)| > limit && PageRows(db, viewer, cursor, limit)[limit - 1].at.At?
    ensures
      var next := Some(CursorOf(PageRows(db, viewer, cursor, limit)[limit - 1]));
      var flat := SortDesc(Remaining(db, viewer, cursor), SortKey);
      && |Remaining(db, viewer, next)| < |Remaining(db, viewer, cursor)|
      && |flat| > limit
      && SortDesc(Remaining(db, viewer, next), SortKey) == flat[limit..]
  {
    var before := Remaining(db, viewer, cursor);
    var flat := SortDesc(before, SortKey);
    PageRowsCorrect(db, viewer, cursor, limit);
    var last := PageRows(db, viewer, cursor, limit)[limit - 1];
    assert last == flat[limit - 1];
    RemainingAfter(db, viewer, cursor, last) by { SortDescSpec(before, SortKey); }
    BelowIsSuffix(before, SortKey, limit - 1);
    assert |flat| == |before| by { SortDescSpec(before, SortKey); }
    var after := Below(before, SortKey, SortKey(last));
    assert |SortDesc(after, SortKey)| == |after| by { SortDescSpec(after, SortKey); }
  }

  lemma RemainingAfter(db: Database, viewer: int, cursor: Option<Cursor>, last: Activity)
    requires last in Remaining(db, viewer, cursor) && last.at.At?
    ensures Remaining(db, viewer, Some(CursorOf(last))) == Below(Remaining(db, viewer, cursor), SortKey, SortKey(last))
  { }

  lemma PageOfPrefix(rows: seq<Activity>, d: Details, limit: nat)
    requires limit > 0
    ensures PageOf(Take(rows, limit + 1), d, limit) == PageOf(rows, d, limit)
  {
    assert Take(Take(rows, limit + 1), limit) == Take(rows, limit);
  }

  /** Over a fixed database the first page and its cursor pages are the flat timeline, cut in
      pages: every winner is scanned exactly once, in order, and the walk ends. */
  lemma {:induction false} WalkIsFlatTimeline(db: Database, viewer: int, cursor: Option<Cursor>, limit: nat, details: nat -> Details, page: nat)
    requires RepostsUnique(db) && limit > 0
    ensures Walk(db, viewer, cursor, limit, details, page)
         == Chunk(SortDesc(Remaining(db, viewer, cursor), SortKey), limit, details, page)
    decreases |Remaining(db, viewer, cursor)|
  {
    var flat := SortDesc(Remaining(db, viewer, cursor), SortKey);
    PageRowsCorrect(db, viewer, cursor, limit);
    PageOfPrefix(flat, details(page), limit);
    var p := PageOf(flat, details(page), limit);
    if p.Ok? && p.value.next.Some? {
      NextCursorAdvances(db, viewer, cursor, limit);
      WalkIsFlatTimeline(db, viewer, p.value.next, limit, details, page + 1);
    }
  }

  function RowsOf(items: seq<Item>): seq<Activity> {
    seq(|items|, i requires 0 <= i < |items| => items[i].activity)
  }

  /** The rows of all items of all pages. */
  function Delivered(pages: seq<Page>): seq<Activity> {
    if pages == [] then [] else RowsOf(pages[0].items) + Delivered(pages[1..])
  }

  predicate Present(a: Activity, d: Details) {
    a.post in d.posts && a.actor in d.actors
  }

  /** Row i of the flat list is shown when the details of its request still hold it. */
  function Shown(rows: seq<Activity>, limit: nat, details: nat -> Details, page: nat): seq<Activity>
    requires limit > 0
  {
    if rows == [] then []
    else
      var last := |rows| - 1;
      Shown(rows[..last], limit, details, page) +
        if Present(rows[last], details(page + PageIndex(last, limit))) then [rows[last]] else []
  }

  /** The request that scans row i: i divided by limit. */
  function PageIndex(i: nat, limit: nat): nat
    requires limit > 0
  {
    if i < limit then 0 else 1 + PageIndex(i - limit, limit)
  }

  ghost predicate AllAccepted(rows: seq<Activity>, limit: nat, details: nat -> Details, page: nat)
    requires limit > 0
  {
    forall i | 0 <= i < |rows| :: AcceptedAt(rows[i], i, limit, details, page)
  }

  /** Row number i is accepted by the request that scans it. */
  predicate AcceptedAt(a: Activity, i: nat, limit: nat, details: nat -> Details, page: nat)
    requires limit > 0
  {
    Accepts(a, details(page + PageIndex(i, limit)))
  }

  lemma {:induction false} ShownOnePage(rows: seq<Activity>, limit: nat, details: nat -> Details, page: nat)
    requires limit > 0 && |rows| <= limit
    ensures RowsOf(Hydrate(rows, details(page))) == Shown(rows, limit, details, page)
  {
    if rows != [] {
      var last := |rows| - 1;
      ShownOnePage(rows[..last], limit, details, page);
    }
  }

  lemma {:induction false} ShownSplit(rows: seq<Activity>, limit: nat, details: nat -> Details, page: nat)
    requires limit > 0 && |rows| >= limit
    ensures Shown(rows, limit, details, page)
         == Shown(rows[..limit], limit, details, page) + Shown(rows[limit..], limit, details, page + 1)
  {
    if |rows| > limit {
      var last := |rows| - 1;
      ShownSplit(rows[..last], limit, details, page);
      assert rows[..last][..limit] == rows[..limit];
      assert rows[limit..][..last - limit] == rows[..last][limit..];
    } else {
      assert rows[..limit] == rows && rows[limit..] == [];
    }
  }

  /** Cutting in pages fails exactly when some request rejects a row of its own page. */
  lemma {:induction false} ChunkSucceeds(rows: seq<Activity>, limit: nat, details: nat -> Details, page: nat)
    requires limit > 0
    ensures Chunk(rows, limit, details, page).Ok? <==> AllAccepted(rows, limit, details, page)
    decreases |rows|
  {
    AcceptedFront(Take(rows, limit), limit, details, page);
    if |rows| > limit {
      AcceptedSplit(rows, limit, details, page);
      ChunkSucceeds(rows[limit..], limit, details, page + 1);
    } else {
      assert Take(rows, limit) == rows;
    }
  }

  /** It shows every row exactly once, except those its own request no longer found. */
  lemma {:induction false} ChunkDelivers(rows: seq<Activity>, limit: nat, details: nat -> Details, page: nat)
    requires limit > 0 && Chunk(rows, limit, details, page).Ok?
    ensures Delivered(Chunk(rows, limit, details, page).value) == Shown(rows, limit, details, page)
    decreases |rows|
  {
    ShownOnePage(Take(rows, limit), limit, details, page);
    var p := PageOf(rows, details(page), limit).value;
    if |rows| > limit {
      var tail := Chunk(rows[limit..], limit, details, page + 1).value;
      assert ([p] + tail)[1..] == tail;
      ChunkDelivers(rows[limit..], limit, details, page + 1);
      ShownSplit(rows, limit, details, page);
    } else {
      assert Take(rows, limit) == rows;
      assert Delivered([p]) == RowsOf(p.items) + [];
    }
  }

  lemma {:induction false} ChunkCarries(rows: seq<Activity>, limit: nat, details: nat -> Details, page: nat)
    requires limit > 0 && Chunk(rows, limit, details, page).Ok?
    ensures var pages := Chunk(rows, limit, details, page).value;
      forall k, item :: 0 <= k < |pages| && item in pages[k].items ==> Carries(item, details(page + k))
    decreases |rows|
  {
    var p := PageOf(rows, details(page), limit).value;
    HydratedCarry(Take(rows, limit), details(page));
    if p.next.Some? {
      ChunkCarries(rows[limit..], limit, details, page + 1);
      var tail := Chunk(rows[limit..], limit, details, page + 1).value;
      var pages := [p] + tail;
      forall k, item | 0 <= k < |pages| && item in pages[k].items ensures Carries(item, details(page + k)) {
        if k > 0 {
          assert pages[k] == tail[k - 1];
          assert page + 1 + (k - 1) == page + k;
        }
      }
    }
  }

  lemma AcceptedFront(rows: seq<Activity>, limit: nat, details: nat -> Details, page: nat)
    requires limit > 0 && |rows| <= limit
    ensures AllAccepted(rows, limit, details, page) <==> AcceptsAll(rows, details(page))
  { }

  lemma AcceptedSplit(rows: seq<Activity>, limit: nat, details: nat -> Details, page: nat)
    requires limit > 0 && |rows| > limit
    ensures AllAccepted(rows, limit, details, page)
       <==> AllAccepted(rows[..limit], limit, details, page) && AllAccepted(rows[limit..], limit, details, page + 1)
  { }

  /** The whole timeline, from the two SQL queries to the items a client sees. */
  lemma {:induction false} TimelineWalk(db: Database, viewer: int, limit: nat, details: nat -> Details)
    requires RepostsUnique(db) && limit > 0
    ensures
      var flat := FollowingTimeline(db, viewer);
      var walk := Walk(db, viewer, None, limit, details, 0);
      && (walk.Ok? <==> AllAccepted(flat, limit, details, 0))
      && (walk.Ok? ==> Delivered(walk.value) == Shown(flat, limit, details, 0))
      && (walk.Ok? ==> forall k, item :: 0 <= k < |walk.value| && item in walk.value[k].items ==> Carries(item, details(k)))
  {
    WalkIsFlatTimeline(db, viewer, None, limit, details, 0);
    var flat := FollowingTimeline(db, viewer);
    ChunkSucceeds(flat, limit, details, 0);
    if Chunk(flat, limit, details, 0).Ok? {
      ChunkDelivers(flat, limit, details, 0);
      ChunkCarries(flat, limit, details, 0);
    }
  }

  /** The order of the flat timeline: rows without a time first, then the latest first; at one
      time reposts before originals, then the greater source id. */
  lemma TimelineOrder(db: Database, viewer: int, i: nat, j: nat)
    requires RepostsUnique(db) && i < j < |FollowingTimeline(db, viewer)|
    ensures var a, b := FollowingTimeline(db, viewer)[i], FollowingTimeline(db, viewer)[j];
      && a.post != b.post
      && (b.at.Null? ==> a.at.Null?)
      && (a.at.At? && b.at.At? ==> a.at.t >= b.at.t)
      && (a.at == b.at ==> (a.kind.Repost? && b.kind.Original?) || (a.kind == b.kind && a.source > b.source))
  {
    SortDescSpec(Winners(db, viewer), SortKey);
    var flat := FollowingTimeline(db, viewer);
    assert Less(SortKey(flat[j]), SortKey(flat[i]));
    assert flat[i] in Winners(db, viewer) && flat[j] in Winners(db, viewer);
  }

  /** An eligible activity without a timestamp makes its post's winner sort first, and the first
      page then fails, whatever details it finds. */
  lemma NullTimestampFailsFirstPage(db: Database, viewer: int, limit: nat, details: Details, a: Activity)
    requires RepostsUnique(db) && limit > 0
    requires a in Activities(db, viewer) && a.at.Null?
    ensures PageOf(PageRows(db, viewer, None, limit), details, limit).Err?
  {
    var flat := FollowingTimeline(db, viewer);
    var w := WinnerExists(Activities(db, viewer), a);
    SortDescSpec(Winners(db, viewer), SortKey);
    PageRowsCorrect(db, viewer, None, limit);
    assert w.at.Null?;
    var i :| 0 <= i < |flat| && flat[i] == w;
    assert flat[0].at.Null?;
    assert !Accepts(Take(PageRows(db, viewer, None, limit), limit)[0], details);
  }
}
