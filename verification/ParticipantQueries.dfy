/** The Postgres queries behind the list of one participant's conversations, as nested-loop joins with
    their multiplicities. SQL's NULL is `None`, and so is the '-infinity' that stands in for it. */
module ParticipantQueries {
  import opened Collections
  import opened Domain
  import opened PostgresTables

  function Admits(c: ConversationId, p: ParticipantId): ThreadRow -> bool {
    (row: ThreadRow) => row.conversation == c && p in row.participants
  }

  function PostedTo(row: ThreadRow): MessageRow -> bool {
    (post: MessageRow) => post.conversation == row.conversation && post.thread == row.id
  }

  /** A joined row of ListConversationIDsByParticipant: cpt, and the two sides left-joined to it. */
  datatype Joined = Joined(thread: ThreadRow, again: Option<ThreadRow>, post: Option<MessageRow>)

  /** The right-hand side of a left join: its matches, or a single NULL. */
  function LeftJoined<T>(matches: seq<T>): (r: seq<Option<T>>)
    ensures r != []
    ensures matches != [] ==> |r| == |matches| && forall i :: 0 <= i < |r| ==> r[i] == Some(matches[i])
    ensures matches == [] ==> r == [None]
  {
    if matches == [] then [None] else seq(|matches|, i requires 0 <= i < |matches| => Some(matches[i]))
  }

  function WithPosts(thread: ThreadRow, again: Option<ThreadRow>, posts: seq<MessageRow>): (r: seq<Joined>)
    ensures r != []
  {
    var matches := LeftJoined(if again.None? then [] else Where(posts, PostedTo(again.value)));
    seq(|matches|, i requires 0 <= i < |matches| => Joined(thread, again, matches[i]))
  }

  function WithAgain(thread: ThreadRow, agains: seq<Option<ThreadRow>>, posts: seq<MessageRow>): (r: seq<Joined>)
    ensures agains != [] ==> r != []
  {
    if agains == [] then []
    else WithAgain(thread, agains[..|agains| - 1], posts) + WithPosts(thread, agains[|agains| - 1], posts)
  }

  function JoinAll(rows: seq<ThreadRow>, agains: seq<Option<ThreadRow>>, posts: seq<MessageRow>): (r: seq<Joined>)
    ensures rows != [] && agains != [] ==> r != []
  {
    if rows == [] then []
    else JoinAll(rows[..|rows| - 1], agains, posts) + WithAgain(rows[|rows| - 1], agains, posts)
  }

  /** The joined rows that GROUP BY collects for c. */
  function Group(s: Tables, c: ConversationId, p: ParticipantId): seq<Joined> {
    if c !in s.conversations then []
    else
      var rows := Where(s.threads, Admits(c, p));
      JoinAll(rows, LeftJoined(rows), s.messages)
  }

  /** The aggregate's FILTER. */
  predicate Counted(j: Joined, p: ParticipantId) {
    j.again.Some? && p in j.again.value.participants && j.post.Some?
  }

  predicate JoinedAt(rows: seq<Joined>, p: ParticipantId, at: Time) {
    exists i :: 0 <= i < |rows| && Counted(rows[i], p) && rows[i].post.value.postedAt == at
  }

  /** MAX(posted_at) over a group. */
  function MaxPosted(rows: seq<Joined>, p: ParticipantId): Option<Time> {
    if rows == [] then None
    else
      var last, before := rows[|rows| - 1], MaxPosted(rows[..|rows| - 1], p);
      if Counted(last, p) && (before.None? || last.post.value.postedAt > before.value)
      then Some(last.post.value.postedAt)
      else before
  }

  function JoinKey(s: Tables, c: ConversationId, p: ParticipantId): Option<Time> {
    MaxPosted(Group(s, c, p), p)
  }

  /** ORDER BY latest_at DESC, with NULL standing for -infinity. */
  predicate NotOlder(a: Option<Time>, b: Option<Time>) {
    b.None? || (a.Some? && a.value >= b.value)
  }

  /** What ListConversationIDsByParticipant may return; rows with equal keys come in any order. */
  ghost predicate Selected(s: Tables, p: ParticipantId, ids: seq<ConversationId>) {
    && NoDuplicates(ids)
    && (forall c :: c in ids <==> Group(s, c, p) != [])
    && (forall i, j :: 0 <= i < j < |ids| ==> NotOlder(JoinKey(s, ids[i], p), JoinKey(s, ids[j], p)))
  }

  // The two queries for one conversation

  predicate AdmitsThread(s: Tables, c: ConversationId, p: ParticipantId, t: ThreadId) {
    exists i :: 0 <= i < |s.threads| && Admits(c, p)(s.threads[i]) && s.threads[i].id == t
  }

  function VisiblePost(s: Tables, c: ConversationId, p: ParticipantId): MessageRow -> bool {
    (post: MessageRow) => post.conversation == c && AdmitsThread(s, c, p, post.thread)
  }

  function ParticipantThreads(s: Tables, c: ConversationId, p: ParticipantId): seq<ThreadRow> {
    SortBy(Where(s.threads, Admits(c, p)), RowSequence())
  }

  function ParticipantMessages(s: Tables, c: ConversationId, p: ParticipantId): seq<MessageRow> {
    SortBy(Where(s.messages, VisiblePost(s, c, p)), PostSequence())
  }

  /** A listed conversation without a projection row is skipped. */
  function ViewAt(at: Moments, p: ParticipantId, c: ConversationId): seq<ConversationView> {
    match ConversationRow(at.row, c)
    case None => []
    case Some(url) =>
      var threads := ThreadsFrom(ParticipantThreads(at.threads, c, p), ParticipantMessages(at.messages, c, p));
      [ConversationView(c, url, threads)]
  }

  function ViewsAt(at: seq<Moments>, p: ParticipantId, ids: seq<ConversationId>): seq<ConversationView>
    requires |at| == |ids|
  {
    if ids == [] then []
    else
      var n := |ids| - 1;
      ViewsAt(at[..n], p, ids[..n]) + ViewAt(at[n], p, ids[n])
  }

  /** The same when nothing happens between the queries. */
  function ViewsOf(s: Tables, p: ParticipantId, ids: seq<ConversationId>): seq<ConversationView> {
    ViewsAt(seq(|ids|, i => Moments(s, s, s)), p, ids)
  }

  // What the join reaches, multiplicity aside

  /** MAX is the greatest counted time, and NULL exactly when nothing is counted. */
  lemma {:induction false} MaxIsGreatest(rows: seq<Joined>, p: ParticipantId)
    ensures MaxPosted(rows, p).None? ==> forall at :: !JoinedAt(rows, p, at)
    ensures MaxPosted(rows, p).Some? ==> JoinedAt(rows, p, MaxPosted(rows, p).value)
    ensures MaxPosted(rows, p).Some? ==> forall at :: JoinedAt(rows, p, at) ==> at <= MaxPosted(rows, p).value
  {
    if rows != [] {
      var init, last := rows[..|rows| - 1], rows[|rows| - 1];
      MaxIsGreatest(init, p);
      assert rows == init + [last];
      forall at ensures JoinedAt(rows, p, at)
        <==> JoinedAt(init, p, at) || (Counted(last, p) && last.post.value.postedAt == at)
      {
        JoinedSplit(init, [last], p, at);
        assert JoinedAt([last], p, at) <==> Counted([last][0], p) && [last][0].post.value.postedAt == at;
      }
    }
  }

  lemma JoinedSplit(a: seq<Joined>, b: seq<Joined>, p: ParticipantId, at: Time)
    ensures JoinedAt(a + b, p, at) <==> JoinedAt(a, p, at) || JoinedAt(b, p, at)
  {
    if i :| 0 <= i < |a| && Counted(a[i], p) && a[i].post.value.postedAt == at {
      assert (a + b)[i] == a[i];
    }
    if i :| 0 <= i < |b| && Counted(b[i], p) && b[i].post.value.postedAt == at {
      assert (a + b)[|a| + i] == b[i];
    }
  }

  predicate HasPostAt(posts: seq<MessageRow>, row: ThreadRow, at: Time) {
    exists i :: 0 <= i < |posts| && PostedTo(row)(posts[i]) && posts[i].postedAt == at
  }

  predicate AnyPostAt(rows: seq<ThreadRow>, posts: seq<MessageRow>, at: Time) {
    exists i :: 0 <= i < |rows| && HasPostAt(posts, rows[i], at)
  }

  predicate ReachesAt(again: Option<ThreadRow>, posts: seq<MessageRow>, p: ParticipantId, at: Time) {
    again.Some? && p in again.value.participants && HasPostAt(posts, again.value, at)
  }

  predicate AnyReachesAt(agains: seq<Option<ThreadRow>>, posts: seq<MessageRow>, p: ParticipantId, at: Time) {
    exists i :: 0 <= i < |agains| && ReachesAt(agains[i], posts, p, at)
  }

  lemma WithPostsAt(thread: ThreadRow, again: Option<ThreadRow>, posts: seq<MessageRow>, p: ParticipantId, at: Time)
    ensures JoinedAt(WithPosts(thread, again, posts), p, at) <==> ReachesAt(again, posts, p, at)
  {
    if again.Some? && p in again.value.participants {
      var matches, joined := Where(posts, PostedTo(again.value)), WithPosts(thread, again, posts);
      if i :| 0 <= i < |joined| && Counted(joined[i], p) && joined[i].post.value.postedAt == at {
        assert matches[i] in matches && matches[i] in posts;
      }
      if i :| 0 <= i < |posts| && PostedTo(again.value)(posts[i]) && posts[i].postedAt == at {
        assert posts[i] in matches;
        var k :| 0 <= k < |matches| && matches[k] == posts[i];
        assert Counted(joined[k], p) && joined[k].post.value.postedAt == at;
      }
    }
  }

  lemma {:induction false} WithAgainAt(thread: ThreadRow, agains: seq<Option<ThreadRow>>, posts: seq<MessageRow>,
                                       p: ParticipantId, at: Time)
    ensures JoinedAt(WithAgain(thread, agains, posts), p, at) <==> AnyReachesAt(agains, posts, p, at)
  {
    if agains != [] {
      var init, last := agains[..|agains| - 1], agains[|agains| - 1];
      WithAgainAt(thread, init, posts, p, at);
      WithPostsAt(thread, last, posts, p, at);
      JoinedSplit(WithAgain(thread, init, posts), WithPosts(thread, last, posts), p, at);
      AnyReachesLast(agains, posts, p, at);
    }
  }

  lemma AnyReachesLast(agains: seq<Option<ThreadRow>>, posts: seq<MessageRow>, p: ParticipantId, at: Time)
    requires agains != []
    ensures AnyReachesAt(agains, posts, p, at)
       <==> AnyReachesAt(agains[..|agains| - 1], posts, p, at) || ReachesAt(agains[|agains| - 1], posts, p, at)
  {
    var init := agains[..|agains| - 1];
    if i :| 0 <= i < |init| && ReachesAt(init[i], posts, p, at) {
      assert ReachesAt(agains[i], posts, p, at);
    }
  }

  lemma {:induction false} JoinAllAt(rows: seq<ThreadRow>, agains: seq<Option<ThreadRow>>, posts: seq<MessageRow>,
                                     p: ParticipantId, at: Time)
    ensures JoinedAt(JoinAll(rows, agains, posts), p, at) <==> rows != [] && AnyReachesAt(agains, posts, p, at)
  {
    if rows != [] {
      var init, last := rows[..|rows| - 1], rows[|rows| - 1];
      JoinAllAt(init, agains, posts, p, at);
      WithAgainAt(last, agains, posts, p, at);
      JoinedSplit(JoinAll(init, agains, posts), WithAgain(last, agains, posts), p, at);
    }
  }

  /** Joining the threads to themselves repeats rows but reaches no other message. */
  lemma GroupAt(s: Tables, c: ConversationId, p: ParticipantId, at: Time)
    ensures JoinedAt(Group(s, c, p), p, at)
       <==> c in s.conversations && AnyPostAt(Where(s.threads, Admits(c, p)), s.messages, at)
  {
    if c in s.conversations {
      var rows := Where(s.threads, Admits(c, p));
      var agains := LeftJoined(rows);
      JoinAllAt(rows, agains, s.messages, p, at);
      if i :| 0 <= i < |agains| && ReachesAt(agains[i], s.messages, p, at) {
        assert HasPostAt(s.messages, rows[i], at);
      }
      if i :| 0 <= i < |rows| && HasPostAt(s.messages, rows[i], at) {
        assert rows[i] in rows;
        assert ReachesAt(agains[i], s.messages, p, at);
      }
    }
  }

  lemma GroupNonEmpty(s: Tables, c: ConversationId, p: ParticipantId)
    ensures Group(s, c, p) != [] <==> c in s.conversations && Where(s.threads, Admits(c, p)) != []
  {
  }
}
