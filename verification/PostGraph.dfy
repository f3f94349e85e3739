/** The post graph: replies, quotes, conversations and their counters, under publishing,
    author deletion, mirror import, retirement and tombstone collection.

    Every operation is one database transaction. Post ids come from a sequence, so they
    are never reused. */
module PostGraph {
  import opened Basics

  datatype Post = Post(
    author: int,
    replyTo: Option<int>,
    quote: Option<int>,
    conversation: Option<int>,
    deleted: bool,
    isPublic: bool,
    replyCount: int,
    quoteCount: int)

  datatype MirrorState = Active | Tombstone

  datatype Mapping = Mapping(account: int, source: int, state: MirrorState)

  /** `mirror` is keyed by its unique local post id. */
  datatype State = State(posts: map<int, Post>, mirror: map<int, Mapping>, nextId: int)

  datatype Outcome = Done | Rejected | NotFound | Forbidden | Inconsistent

  // ---------------------------------------------------------------------------
  // The transactions as functions of the database
  // ---------------------------------------------------------------------------

  predicate PublicPost(posts: map<int, Post>, users: set<int>, id: int) {
    id in posts && !posts[id].deleted && posts[id].isPublic && posts[id].author in users
  }

  /** The root of the conversation a reply to `parent` joins. */
  function ConversationFor(posts: map<int, Post>, parent: int): int
    requires parent in posts
  {
    if posts[parent].conversation.Some? && posts[parent].conversation.value != 0 then posts[parent].conversation.value else parent
  }

  /** UPDATE posts SET reply_count = reply_count + 1 WHERE id = ? AND deleted_at IS NULL. */
  function IncReply(posts: map<int, Post>, id: int): (map<int, Post>, int) {
    if id in posts && !posts[id].deleted then (posts[id := posts[id].(replyCount := posts[id].replyCount + 1)], 1) else (posts, 0)
  }

  function IncQuote(posts: map<int, Post>, id: int): (map<int, Post>, int) {
    if id in posts && !posts[id].deleted then (posts[id := posts[id].(quoteCount := posts[id].quoteCount + 1)], 1) else (posts, 0)
  }

  /** UPDATE posts SET reply_count = reply_count - 1 WHERE id = ? AND reply_count > 0, deleted rows included. */
  function DecReply(posts: map<int, Post>, id: int): (map<int, Post>, int) {
    if id in posts && posts[id].replyCount > 0 then (posts[id := posts[id].(replyCount := posts[id].replyCount - 1)], 1) else (posts, 0)
  }

  function DecQuote(posts: map<int, Post>, id: int): (map<int, Post>, int) {
    if id in posts && posts[id].quoteCount > 0 then (posts[id := posts[id].(quoteCount := posts[id].quoteCount - 1)], 1) else (posts, 0)
  }

  /** Publishing. `abort` stands for any later failure of the same transaction. */
  function CreateSpec(s: State, users: set<int>, author: int, replyTo: Option<int>, quote: Option<int>, abort: bool): (State, Outcome) {
    if replyTo == Some(0) || quote == Some(0) || (replyTo.Some? && quote.Some?) then (s, Rejected)
    else if replyTo.Some? && !PublicPost(s.posts, users, replyTo.value) then (s, NotFound)
    else if quote.Some? && !PublicPost(s.posts, users, quote.value) then (s, NotFound)
    else
      var conversation := if replyTo.Some? then Some(ConversationFor(s.posts, replyTo.value)) else None;
      var posts := s.posts[s.nextId := Post(author, replyTo, quote, conversation, false, true, 0, 0)];
      var (counted, rows) :=
        if replyTo.Some? then IncReply(posts, replyTo.value)
        else if quote.Some? then IncQuote(posts, quote.value)
        else (posts, 1);
      if rows != 1 then (s, Inconsistent)
      else if abort then (s, Rejected)
      else (s.(posts := counted, nextId := s.nextId + 1), Done)
  }

  /** Deletion by the author. */
  function DeleteSpec(s: State, id: int, viewer: int): (State, Outcome) {
    if id !in s.posts || s.posts[id].deleted then (s, NotFound)
    else if s.posts[id].author != viewer then (s, Forbidden)
    else
      var post := s.posts[id];
      if post.replyTo.Some? && post.replyTo.value !in s.posts then (s, Inconsistent)
      else
        var (posts1, rows1) := if post.replyTo.Some? then DecReply(s.posts, post.replyTo.value) else (s.posts, 1);
        if rows1 != 1 then (s, Inconsistent)
        else if post.quote.Some? && post.quote.value !in posts1 then (s, Inconsistent)
        else
          var (posts2, rows2) := if post.quote.Some? then DecQuote(posts1, post.quote.value) else (posts1, 1);
          if rows2 != 1 then (s, Inconsistent)
          else (s.(posts := posts2[id := posts2[id].(deleted := true)]), Done)
  }

  /** A structural dependency: some row, deleted or not, refers to the post. */
  predicate HasDependency(posts: map<int, Post>, id: int) {
    exists p | p in posts :: Refers(posts[p], id)
  }

  predicate Refers(p: Post, id: int) {
    p.replyTo == Some(id) || p.quote == Some(id) || p.conversation == Some(id)
  }

  /** Import of one mirror post. */
  function ImportSpec(s: State, author: int, account: int, source: int): State {
    State(
      s.posts[s.nextId := Post(author, None, None, None, false, true, 0, 0)],
      s.mirror[s.nextId := Mapping(account, source, Active)],
      s.nextId + 1)
  }

  /** Retirement of a mirror post: a tombstone when something refers to it, else a hard delete
      that takes the mapping with it. */
  function RetireSpec(s: State, id: int): State
    requires id in s.posts && id in s.mirror
  {
    if HasDependency(s.posts, id) then
      s.(posts := s.posts[id := s.posts[id].(deleted := true)], mirror := s.mirror[id := s.mirror[id].(state := Tombstone)])
    else
      s.(posts := s.posts - {id}, mirror := s.mirror - {id})
  }

  function CollectSpec(s: State, id: int): State
    requires id in s.posts
  {
    if HasDependency(s.posts, id) then s else s.(posts := s.posts - {id}, mirror := s.mirror - {id})
  }

  // ---------------------------------------------------------------------------
  // What every reachable database satisfies
  // ---------------------------------------------------------------------------

  datatype Link = ReplyLink | QuoteLink

  function Target(p: Post, link: Link): Option<int> {
    if link == ReplyLink then p.replyTo else p.quote
  }

  function Count(p: Post, link: Link): int {
    if link == ReplyLink then p.replyCount else p.quoteCount
  }

  /** The live posts that reply to, or quote, a post. */
  ghost function Referrers(posts: map<int, Post>, link: Link, id: int): set<int> {
    set p | p in posts && !posts[p].deleted && Target(posts[p], link) == Some(id)
  }

  /** References point to existing older rows, and a reply is in its parent's conversation. */
  ghost predicate RefsOk(posts: map<int, Post>, id: int)
    requires id in posts
  {
    var p := posts[id];
    && id > 0
    && (p.replyTo.Some? ==>
          && 0 < p.replyTo.value < id && p.replyTo.value in posts
          && p.quote.None?
          && p.conversation == Some(ConversationFor(posts, p.replyTo.value)))
    && (p.replyTo.None? ==> p.conversation.None?)
    && (p.quote.Some? ==> 0 < p.quote.value < id && p.quote.value in posts)
    && (p.conversation.Some? ==>
          && 0 < p.conversation.value < id && p.conversation.value in posts
          && posts[p.conversation.value].replyTo.None?)
  }

  ghost predicate CountsOk(posts: map<int, Post>, id: int)
    requires id in posts
  {
    forall link :: Count(posts[id], link) == |Referrers(posts, link, id)|
  }

  ghost predicate GraphOk(posts: map<int, Post>) {
    forall id | id in posts :: RefsOk(posts, id) && CountsOk(posts, id)
  }

  /** Source ids stand for their rank in string order; this is the empty string. */
  const EMPTY_ID: int := 0

  /** Mirror mappings belong to imported roots, one per source post, and name their source; a
      tombstone belongs to a deleted post. */
  ghost predicate MirrorOk(s: State) {
    && (forall id | id in s.mirror :: s.mirror[id].source != EMPTY_ID)
    && (forall id | id in s.mirror :: id in s.posts && s.posts[id].replyTo.None? && s.posts[id].quote.None?)
    && (forall id | id in s.mirror && s.mirror[id].state == Tombstone :: s.posts[id].deleted)
    && (forall id, other | id in s.mirror && other in s.mirror && s.mirror[id].source == s.mirror[other].source :: id == other)
  }

  ghost predicate Inv(s: State) {
    && s.nextId > 0
    && (forall id | id in s.posts :: id < s.nextId)
    && GraphOk(s.posts)
    && MirrorOk(s)
  }

  /** Following reply_to to its end; the parent is always an older post. */
  ghost function Root(posts: map<int, Post>, id: int): int
    requires GraphOk(posts) && id in posts
    decreases id
  {
    assert RefsOk(posts, id);
    if posts[id].replyTo.None? then id else Root(posts, posts[id].replyTo.value)
  }

  /** The chain of every reply ends, and ends at its conversation_id. */
  lemma {:induction false} RootIsConversation(posts: map<int, Post>, id: int)
    requires GraphOk(posts) && id in posts && posts[id].replyTo.Some?
    ensures posts[id].conversation == Some(Root(posts, id))
    ensures Root(posts, id) in posts && posts[Root(posts, id)].replyTo.None?
    decreases id
  {
    assert RefsOk(posts, id);
    var parent := posts[id].replyTo.value;
    assert RefsOk(posts, parent);
    if posts[parent].replyTo.Some? {
      RootIsConversation(posts, parent);
    }
  }

  // ---------------------------------------------------------------------------
  // Preservation
  // ---------------------------------------------------------------------------

  /** Two rows differ at most in their counters and their deletion flag. */
  ghost predicate SameRefs(p: Post, q: Post) {
    p.replyTo == q.replyTo && p.quote == q.quote && p.conversation == q.conversation && p.author == q.author && p.isPublic == q.isPublic
  }

  /** Rows added, counters changed, flags set: a row's references stay good as long as what it
      refers to is still there. */
  lemma RefsFrame(before: map<int, Post>, after: map<int, Post>, id: int)
    requires id in before && RefsOk(before, id) && id in after && SameRefs(before[id], after[id])
    requires forall q | q in before && Refers(before[id], q) :: q in after && SameRefs(before[q], after[q])
    ensures RefsOk(after, id)
  { }

  function Delta(p: Post, link: Link, id: int): int {
    if Target(p, link) == Some(id) then 1 else 0
  }

  /** What publishing p does to the table: one new row, one counter of one row. */
  ghost predicate Published(before: map<int, Post>, after: map<int, Post>, added: int, p: Post) {
    && added !in before
    && (forall id :: id in after <==> id in before || id == added)
    && after[added] == p && !p.deleted
    && (forall link :: Count(p, link) == 0)
    && (forall id | id in before :: SameRefs(before[id], after[id]) && before[id].deleted == after[id].deleted)
    && (forall id, link | id in before :: Count(after[id], link) == Count(before[id], link) + Delta(p, link, id))
  }

  lemma PublishedReferrers(before: map<int, Post>, after: map<int, Post>, added: int, p: Post, link: Link, id: int)
    requires GraphOk(before) && Published(before, after, added, p) && Target(p, link) != Some(added) && id in after
    ensures |Referrers(after, link, id)| == Count(after[id], link)
  {
    var old', new' := Referrers(before, link, id), Referrers(after, link, id);
    forall q ensures q in new' <==> q in old' || (q == added && Target(p, link) == Some(id)) {
      assert q in after <==> q in before || q == added;
      if q in before { assert SameRefs(before[q], after[q]); }
    }
    if id in before {
      assert CountsOk(before, id);
    } else {
      forall q | q in before ensures q !in old' {
        assert RefsOk(before, q);
      }
    }
    assert new' == if Target(p, link) == Some(id) then old' + {added} else old';
  }

  lemma PublishedKeepsGraph(before: map<int, Post>, after: map<int, Post>, added: int, p: Post)
    requires GraphOk(before) && Published(before, after, added, p) && RefsOk(after, added)
    ensures GraphOk(after)
  {
    forall id | id in after ensures RefsOk(after, id) && CountsOk(after, id) {
      if id in before {
        assert RefsOk(before, id);
        RefsFrame(before, after, id);
      }
      forall link ensures Count(after[id], link) == |Referrers(after, link, id)| {
        PublishedReferrers(before, after, added, p, link, id);
      }
    }
  }

  function Bump(p: Post, link: Link, d: int): Post {
    if link == ReplyLink then p.(replyCount := p.replyCount + d) else p.(quoteCount := p.quoteCount + d)
  }

  /** The only link a post has, if any. */
  ghost predicate OnlyLink(p: Post, link: Link, id: int) {
    Target(p, link) == Some(id) && forall other | other != link :: Target(p, other).None?
  }

  lemma LinkedPublished(before: map<int, Post>, added: int, p: Post, link: Link, id: int)
    requires added !in before && id in before && !p.deleted && p.replyCount == 0 && p.quoteCount == 0
    requires OnlyLink(p, link, id)
    ensures Published(before, before[added := p][id := Bump(before[id], link, 1)], added, p)
  { }

  lemma PlainPublished(before: map<int, Post>, added: int, p: Post)
    requires added !in before && !p.deleted && p.replyCount == 0 && p.quoteCount == 0 && p.replyTo.None? && p.quote.None?
    ensures Published(before, before[added := p], added, p)
  { }

  /** Publishing keeps the graph consistent, and its increment always finds its row. */
  lemma CreateKeeps(s: State, users: set<int>, author: int, replyTo: Option<int>, quote: Option<int>, abort: bool)
    requires Inv(s)
    ensures Inv(CreateSpec(s, users, author, replyTo, quote, abort).0)
    ensures CreateSpec(s, users, author, replyTo, quote, abort).1 != Inconsistent
  {
    if CreateSpec(s, users, author, replyTo, quote, abort).1 == Done {
      var conversation := if replyTo.Some? then Some(ConversationFor(s.posts, replyTo.value)) else None;
      CreatedKeeps(s, users, Post(author, replyTo, quote, conversation, false, true, 0, 0));
    }
  }

  lemma CreatedKeeps(s: State, users: set<int>, p: Post)
    requires Inv(s) && CreateSpec(s, users, p.author, p.replyTo, p.quote, false).1 == Done
    requires p.conversation == if p.replyTo.Some? then Some(ConversationFor(s.posts, p.replyTo.value)) else None
    requires p.isPublic && !p.deleted && p.replyCount == 0 && p.quoteCount == 0
    ensures Inv(CreateSpec(s, users, p.author, p.replyTo, p.quote, false).0)
  {
    var t := CreateSpec(s, users, p.author, p.replyTo, p.quote, false).0;
    CreatedIs(s, users, p);
    NewRefsOk(s, t.posts, p);
    PublishedKeepsGraph(s.posts, t.posts, s.nextId, p);
    forall id | id in s.mirror ensures id in t.posts && t.posts[id].replyTo.None? && t.posts[id].quote.None? {
      assert SameRefs(s.posts[id], t.posts[id]);
    }
  }

  lemma NewRefsOk(s: State, after: map<int, Post>, p: Post)
    requires Inv(s) && Published(s.posts, after, s.nextId, p)
    requires p.replyTo.Some? ==> p.replyTo.value in s.posts && p.quote.None?
    requires p.quote.Some? ==> p.quote.value in s.posts
    requires p.conversation == if p.replyTo.Some? then Some(ConversationFor(s.posts, p.replyTo.value)) else None
    ensures RefsOk(after, s.nextId)
  {
    if p.replyTo.Some? {
      assert RefsOk(s.posts, p.replyTo.value) && SameRefs(s.posts[p.replyTo.value], after[p.replyTo.value]);
      var root := ConversationFor(s.posts, p.replyTo.value);
      assert root in s.posts && SameRefs(s.posts[root], after[root]);
    }
    if p.quote.Some? {
      assert RefsOk(s.posts, p.quote.value);
    }
  }

  lemma CreatedIs(s: State, users: set<int>, p: Post)
    requires Inv(s) && CreateSpec(s, users, p.author, p.replyTo, p.quote, false).1 == Done
    requires p.conversation == if p.replyTo.Some? then Some(ConversationFor(s.posts, p.replyTo.value)) else None
    requires p.isPublic && !p.deleted && p.replyCount == 0 && p.quoteCount == 0
    ensures Published(s.posts, CreateSpec(s, users, p.author, p.replyTo, p.quote, false).0.posts, s.nextId, p)
  {
    if p.replyTo.Some? {
      LinkedPublished(s.posts, s.nextId, p, ReplyLink, p.replyTo.value);
    } else if p.quote.Some? {
      LinkedPublished(s.posts, s.nextId, p, QuoteLink, p.quote.value);
    } else {
      PlainPublished(s.posts, s.nextId, p);
    }
  }

  /** What deleting a row does to the table: a flag, and the counters of what it referred to. */
  ghost predicate Unpublished(before: map<int, Post>, after: map<int, Post>, gone: int) {
    && gone in before && !before[gone].deleted
    && (forall id :: id in after <==> id in before)
    && (forall id | id in before :: SameRefs(before[id], after[id]) && after[id].deleted == (before[id].deleted || id == gone))
    && (forall id, link | id in before :: Count(after[id], link) == Count(before[id], link) - Delta(before[gone], link, id))
  }

  lemma UnpublishedReferrers(before: map<int, Post>, after: map<int, Post>, gone: int, link: Link, id: int)
    requires GraphOk(before) && Unpublished(before, after, gone) && id in before
    ensures |Referrers(after, link, id)| == Count(after[id], link)
  {
    assert CountsOk(before, id);
    var old', new' := Referrers(before, link, id), Referrers(after, link, id);
    forall q ensures q in new' <==> q in old' && q != gone {
      assert q in after <==> q in before;
      if q in before { assert SameRefs(before[q], after[q]); }
    }
    assert new' == old' - {gone};
    assert gone in old' <==> Target(before[gone], link) == Some(id);
  }

  lemma UnpublishedKeepsGraph(before: map<int, Post>, after: map<int, Post>, gone: int)
    requires GraphOk(before) && Unpublished(before, after, gone)
    ensures GraphOk(after)
  {
    forall id | id in after ensures RefsOk(after, id) && CountsOk(after, id) {
      assert RefsOk(before, id);
      RefsFrame(before, after, id);
      forall link ensures Count(after[id], link) == |Referrers(after, link, id)| {
        UnpublishedReferrers(before, after, gone, link, id);
      }
    }
  }

  /** A live reply or quote is counted by what it refers to. */
  lemma CountedBy(posts: map<int, Post>, id: int)
    requires GraphOk(posts) && id in posts && !posts[id].deleted
    ensures posts[id].replyTo.Some? ==> posts[id].replyTo.value in posts && posts[posts[id].replyTo.value].replyCount > 0
    ensures posts[id].quote.Some? ==> posts[id].quote.value in posts && posts[posts[id].quote.value].quoteCount > 0
  {
    assert RefsOk(posts, id);
    if posts[id].replyTo.Some? {
      var parent := posts[id].replyTo.value;
      assert CountsOk(posts, parent) && id in Referrers(posts, ReplyLink, parent);
    }
    if posts[id].quote.Some? {
      var target := posts[id].quote.value;
      assert CountsOk(posts, target) && id in Referrers(posts, QuoteLink, target);
    }
  }

  lemma LinkedUnpublished(before: map<int, Post>, gone: int, link: Link, id: int)
    requires gone in before && id in before && id != gone && !before[gone].deleted && OnlyLink(before[gone], link, id)
    ensures Unpublished(before, before[id := Bump(before[id], link, -1)][gone := before[gone].(deleted := true)], gone)
  { }

  lemma PlainUnpublished(before: map<int, Post>, gone: int)
    requires gone in before && !before[gone].deleted && before[gone].replyTo.None? && before[gone].quote.None?
    ensures Unpublished(before, before[gone := before[gone].(deleted := true)], gone)
  { }

  lemma DeletedIs(s: State, id: int, viewer: int)
    requires Inv(s) && id in s.posts && !s.posts[id].deleted && s.posts[id].author == viewer
    ensures DeleteSpec(s, id, viewer).1 == Done
    ensures Unpublished(s.posts, DeleteSpec(s, id, viewer).0.posts, id)
  {
    var p := s.posts[id];
    CountedBy(s.posts, id);
    assert RefsOk(s.posts, id);
    var after := DeleteSpec(s, id, viewer).0.posts;
    if p.replyTo.Some? {
      LinkedUnpublished(s.posts, id, ReplyLink, p.replyTo.value);
      assert after == s.posts[p.replyTo.value := Bump(s.posts[p.replyTo.value], ReplyLink, -1)][id := p.(deleted := true)];
    } else if p.quote.Some? {
      LinkedUnpublished(s.posts, id, QuoteLink, p.quote.value);
      assert after == s.posts[p.quote.value := Bump(s.posts[p.quote.value], QuoteLink, -1)][id := p.(deleted := true)];
    } else {
      PlainUnpublished(s.posts, id);
    }
  }

  /** Deleting keeps the graph consistent, and its guarded decrements always find their row. */
  lemma DeleteKeeps(s: State, id: int, viewer: int)
    requires Inv(s)
    ensures Inv(DeleteSpec(s, id, viewer).0)
    ensures DeleteSpec(s, id, viewer).1 != Inconsistent
  {
    if id in s.posts && !s.posts[id].deleted && s.posts[id].author == viewer {
      DeletedIs(s, id, viewer);
      UnpublishedKeepsGraph(s.posts, DeleteSpec(s, id, viewer).0.posts, id);
    }
  }

  lemma ImportKeeps(s: State, author: int, account: int, source: int)
    requires Inv(s) && source != EMPTY_ID && forall id | id in s.mirror :: s.mirror[id].source != source
    ensures Inv(ImportSpec(s, author, account, source))
  {
    var t := ImportSpec(s, author, account, source);
    PlainPublished(s.posts, s.nextId, t.posts[s.nextId]);
    PublishedKeepsGraph(s.posts, t.posts, s.nextId, t.posts[s.nextId]);
  }

  /** Soft-deleting or removing a root that refers to nothing changes no counter. */
  lemma RootGoneKeepsGraph(before: map<int, Post>, after: map<int, Post>, gone: int)
    requires GraphOk(before) && gone in before && before[gone].replyTo.None? && before[gone].quote.None?
    requires after == before[gone := before[gone].(deleted := true)] || (after == before - {gone} && !HasDependency(before, gone))
    ensures GraphOk(after)
  {
    forall id | id in after ensures RefsOk(after, id) && CountsOk(after, id) {
      assert RefsOk(before, id) && CountsOk(before, id);
      RefsFrame(before, after, id);
      forall link ensures Count(after[id], link) == |Referrers(after, link, id)| {
        RootGoneReferrers(before, after, gone, link, id);
      }
    }
  }

  lemma RootGoneReferrers(before: map<int, Post>, after: map<int, Post>, gone: int, link: Link, id: int)
    requires gone in before && before[gone].replyTo.None? && before[gone].quote.None?
    requires after == before[gone := before[gone].(deleted := true)] || after == before - {gone}
    ensures Referrers(after, link, id) == Referrers(before, link, id)
  { }

  lemma RetireKeeps(s: State, id: int)
    requires Inv(s) && id in s.mirror
    ensures Inv(RetireSpec(s, id)) && Inv(CollectSpec(s, id))
  {
    RootGoneKeepsGraph(s.posts, RetireSpec(s, id).posts, id);
    if !HasDependency(s.posts, id) {
      RootGoneKeepsGraph(s.posts, CollectSpec(s, id).posts, id);
    }
  }

  // ---------------------------------------------------------------------------
  // When the transactions succeed, and what they undo
  // ---------------------------------------------------------------------------

  /** A post is created exactly when it is not both a reply and a quote, its target is public
      and nothing later fails; otherwise nothing changes. */
  lemma CreateOutcome(s: State, users: set<int>, author: int, replyTo: Option<int>, quote: Option<int>, abort: bool)
    requires Inv(s)
    ensures
      var (t, outcome) := CreateSpec(s, users, author, replyTo, quote, abort);
      && (outcome == Done <==>
            && !(replyTo.Some? && quote.Some?) && !abort
            && (replyTo.Some? ==> PublicPost(s.posts, users, replyTo.value))
            && (quote.Some? ==> PublicPost(s.posts, users, quote.value)))
      && (outcome != Done ==> t == s)
      && (outcome == Done ==>
            && t.mirror == s.mirror && t.nextId == s.nextId + 1 && s.nextId in t.posts
            && t.posts[s.nextId].author == author && t.posts[s.nextId].isPublic && t.posts[s.nextId].replyTo == replyTo && t.posts[s.nextId].quote == quote
            && Published(s.posts, t.posts, s.nextId, t.posts[s.nextId]))
  {
    if replyTo.Some? && PublicPost(s.posts, users, replyTo.value) { assert RefsOk(s.posts, replyTo.value); }
    if quote.Some? && PublicPost(s.posts, users, quote.value) { assert RefsOk(s.posts, quote.value); }
    var (t, outcome) := CreateSpec(s, users, author, replyTo, quote, abort);
    if outcome == Done {
      var conversation := if replyTo.Some? then Some(ConversationFor(s.posts, replyTo.value)) else None;
      CreatedIs(s, users, Post(author, replyTo, quote, conversation, false, true, 0, 0));
    }
  }

  /** A post is deleted exactly when it is live and its author asks. */
  lemma DeleteOutcome(s: State, id: int, viewer: int)
    requires Inv(s)
    ensures
      var (t, outcome) := DeleteSpec(s, id, viewer);
      && (outcome == Done <==> id in s.posts && !s.posts[id].deleted && s.posts[id].author == viewer)
      && (outcome != Done ==> t == s)
      && (outcome == Done ==> t == s.(posts := t.posts) && Unpublished(s.posts, t.posts, id))
  {
    if id in s.posts && !s.posts[id].deleted && s.posts[id].author == viewer {
      DeletedIs(s, id, viewer);
    }
  }

  /** Deleting a post right after creating it puts every other row back as it was. */
  lemma DeleteUndoesCreate(s: State, users: set<int>, author: int, replyTo: Option<int>, quote: Option<int>)
    requires Inv(s) && CreateSpec(s, users, author, replyTo, quote, false).1 == Done
    ensures
      var t := CreateSpec(s, users, author, replyTo, quote, false).0;
      var (u, outcome) := DeleteSpec(t, s.nextId, author);
      && outcome == Done
      && u.posts - {s.nextId} == s.posts
      && u.posts[s.nextId].deleted
      && u.mirror == s.mirror
  {
    var t := CreateSpec(s, users, author, replyTo, quote, false).0;
    CreateOutcome(s, users, author, replyTo, quote, false);
    CreateKeeps(s, users, author, replyTo, quote, false);
    DeleteOutcome(t, s.nextId, author);
    var u := DeleteSpec(t, s.nextId, author).0;
    UndoneRows(s.posts, t.posts, u.posts, s.nextId);
  }

  lemma UndoneRows(before: map<int, Post>, between: map<int, Post>, after: map<int, Post>, added: int)
    requires added in between && Published(before, between, added, between[added]) && Unpublished(between, after, added)
    ensures after - {added} == before
  {
    forall id ensures id in after - {added} <==> id in before { }
    forall id | id in before ensures after[id] == before[id] {
      assert SameRefs(before[id], between[id]) && SameRefs(between[id], after[id]);
      assert Count(after[id], ReplyLink) == Count(between[id], ReplyLink) - Delta(between[added], ReplyLink, id);
      assert Count(after[id], QuoteLink) == Count(between[id], QuoteLink) - Delta(between[added], QuoteLink, id);
    }
  }

  // ---------------------------------------------------------------------------
  // Every run
  // ---------------------------------------------------------------------------

  datatype Event =
    | Create(users: set<int>, author: int, replyTo: Option<int>, quote: Option<int>, abort: bool)
    | Delete(id: int, viewer: int)
    | Import(owner: int, account: int, source: int)
    | Retire(mapped: int)
    | Collect(tombstone: int)

  /** One committed transaction; one that does not apply leaves the database alone. */
  function Step(s: State, e: Event): State {
    match e
    case Create(users, author, replyTo, quote, abort) => CreateSpec(s, users, author, replyTo, quote, abort).0
    case Delete(id, viewer) => DeleteSpec(s, id, viewer).0
    case Import(owner, account, source) =>
      if source == EMPTY_ID || exists id | id in s.mirror :: s.mirror[id].source == source then s else ImportSpec(s, owner, account, source)
    case Retire(id) => if id in s.mirror && id in s.posts && s.mirror[id].state == Active then RetireSpec(s, id) else s
    case Collect(id) => if id in s.mirror && id in s.posts && s.mirror[id].state == Tombstone then CollectSpec(s, id) else s
  }

  function Run(s: State, events: seq<Event>): State {
    if events == [] then s else Step(Run(s, events[..|events| - 1]), events[|events| - 1])
  }

  const EMPTY: State := State(map[], map[], 1)

  lemma StepKeeps(s: State, e: Event)
    requires Inv(s)
    ensures Inv(Step(s, e))
  {
    match e
    case Create(users, author, replyTo, quote, abort) => CreateKeeps(s, users, author, replyTo, quote, abort);
    case Delete(id, viewer) => DeleteKeeps(s, id, viewer);
    case Import(owner, account, source) =>
      if source != EMPTY_ID && !exists id | id in s.mirror :: s.mirror[id].source == source {
        ImportKeeps(s, owner, account, source);
      }
    case Retire(id) => if id in s.mirror { RetireKeeps(s, id); }
    case Collect(id) => if id in s.mirror { RetireKeeps(s, id); }
  }

  /** Every reachable post graph is consistent. */
  lemma {:induction false} RunKeeps(s: State, events: seq<Event>)
    requires Inv(s)
    ensures Inv(Run(s, events))
  {
    if events != [] {
      RunKeeps(s, events[..|events| - 1]);
      StepKeeps(Run(s, events[..|events| - 1]), events[|events| - 1]);
    }
  }

  /** In every reachable database: references exist, reply chains end at conversation_id, the
      counters count live replies and quotes, a tombstone's post is deleted, and no consistency
      error can be reported. */
  lemma {:induction false} ReachableGraph(events: seq<Event>)
    ensures
      var s := Run(EMPTY, events);
      && (forall id | id in s.posts ::
            && (s.posts[id].replyTo.Some? ==> s.posts[id].replyTo.value in s.posts)
            && (s.posts[id].quote.Some? ==> s.posts[id].quote.value in s.posts)
            && (s.posts[id].conversation.Some? ==> s.posts[id].conversation.value in s.posts)
            && s.posts[id].replyCount == |Referrers(s.posts, ReplyLink, id)|
            && s.posts[id].quoteCount == |Referrers(s.posts, QuoteLink, id)|)
      && GraphOk(s.posts)
      && (forall id | id in s.mirror :: id in s.posts && (s.mirror[id].state == Tombstone ==> s.posts[id].deleted))
      && (forall id | id in s.posts && s.posts[id].replyTo.Some? :: s.posts[id].conversation == Some(Root(s.posts, id)))
      && (forall id, viewer :: DeleteSpec(s, id, viewer).1 != Inconsistent)
      && (forall users, author, replyTo, quote, abort :: CreateSpec(s, users, author, replyTo, quote, abort).1 != Inconsistent)
  {
    var s := Run(EMPTY, events);
    RunKeeps(EMPTY, events);
    forall id | id in s.posts ensures RefsOk(s.posts, id) && CountsOk(s.posts, id) {
    }
    forall id | id in s.posts && s.posts[id].replyTo.Some? ensures s.posts[id].conversation == Some(Root(s.posts, id)) {
      RootIsConversation(s.posts, id);
    }
    forall id, viewer ensures DeleteSpec(s, id, viewer).1 != Inconsistent {
      DeleteKeeps(s, id, viewer);
    }
    forall users, author, replyTo, quote, abort ensures CreateSpec(s, users, author, replyTo, quote, abort).1 != Inconsistent {
      CreateKeeps(s, users, author, replyTo, quote, abort);
    }
  }
}
