/** Both stores answer the list of one participant's conversations as the log demands. */
module ParticipantAnswers {
  import opened Collections
  import opened Domain
  import opened ReadModel
  import opened ByParticipant
  import opened PostgresTables
  import opened PostgresRefinement
  import opened ParticipantQueries
  import MemoryProjection
  import MemoryRefinement

  // In memory

  lemma {:induction false} LatestAmongIsNewest(s: MemoryProjection.State, log: seq<Event>, c: ConversationId,
                                               threads: seq<ThreadView>)
    requires WellFormed(log) && MemoryRefinement.Matches(s, log)
    requires forall i :: 0 <= i < |threads| ==>
      Started(log, c, threads[i].id) && threads[i].messages == Messages(log, c, threads[i].id)
    ensures MemoryProjection.LatestAmong(s, threads) == Newest(threads)
  {
    if threads != [] {
      var last := threads[|threads| - 1];
      LatestAmongIsNewest(s, log, c, threads[..|threads| - 1]);
      LatestIsNewest(log, c, last.id);
      assert MemoryProjection.LatestOf(s, last.id) == Latest(log, last.id);
    }
  }

  lemma SeenInMemory(s: MemoryProjection.State, log: seq<Event>, p: ParticipantId, v: ConversationView)
    requires WellFormed(log) && MemoryRefinement.Matches(s, log) && MemoryProjection.Sees(s, p, v)
    ensures v == Visible(View(log, v.id), p)
    ensures MemoryProjection.LatestAmong(s, v.threads) == Newest(v.threads)
  {
    assert MemoryRefinement.ConversationMatches(s, log, v.id);
    forall i | 0 <= i < |v.threads|
      ensures Started(log, v.id, v.threads[i].id) && v.threads[i].messages == Messages(log, v.id, v.threads[i].id)
    {
      VisibleThread(log, v.id, p, i);
    }
    LatestAmongIsNewest(s, log, v.id, v.threads);
  }

  lemma ListedInMemory(s: MemoryProjection.State, log: seq<Event>, p: ParticipantId, views: seq<ConversationView>,
                       c: ConversationId)
    requires WellFormed(log) && MemoryRefinement.Matches(s, log) && MemoryProjection.Lists(s, p, views)
    ensures IsListed(views, c) <==> TakesPart(log, c, p)
  {
    VisibleIffTakesPart(log, c, p);
    assert MemoryRefinement.ConversationMatches(s, log, c);
    if i :| 0 <= i < |views| && views[i].id == c {
      assert MemoryProjection.Sees(s, p, views[i]);
    }
    if t :| Started(log, c, t) && p in Participants(log, c, t) {
      StartedIsCreated(log, c, t);
    }
  }

  /** GetByParticipant of the in-memory projection is exact. */
  lemma MemoryAnswers(s: MemoryProjection.State, log: seq<Event>, p: ParticipantId, views: seq<ConversationView>)
    requires WellFormed(log) && MemoryRefinement.Matches(s, log) && MemoryProjection.Lists(s, p, views)
    ensures Answers(log, p, views)
  {
    forall c ensures IsListed(views, c) <==> TakesPart(log, c, p) {
      ListedInMemory(s, log, p, views, c);
    }
    forall i | 0 <= i < |views|
      ensures views[i] == Visible(View(log, views[i].id), p)
      ensures MemoryProjection.LatestAmong(s, views[i].threads) == Newest(views[i].threads)
    {
      assert MemoryProjection.Sees(s, p, views[i]);
      SeenInMemory(s, log, p, views[i]);
    }
  }

  // In Postgres: the threads

  lemma {:induction false} AdmittedOf(rows: seq<ThreadRow>, posts: seq<MessageRow>, c: ConversationId, p: ParticipantId)
    ensures ThreadsFrom(Where(rows, Admits(c, p)), posts) == Where(ThreadsFrom(RowsOf(rows, c), posts), SeenBy(p))
    ensures Where(RowsOf(rows, c), Admits(c, p)) == Where(rows, Admits(c, p))
  {
    if rows != [] {
      var init, last := rows[..|rows| - 1], rows[|rows| - 1];
      AdmittedOf(init, posts, c, p);
      assert rows == init + [last];
      OneAdmitted(init, last, posts, c, p);
    }
  }

  lemma OneAdmitted(init: seq<ThreadRow>, last: ThreadRow, posts: seq<MessageRow>, c: ConversationId, p: ParticipantId)
    requires ThreadsFrom(Where(init, Admits(c, p)), posts) == Where(ThreadsFrom(RowsOf(init, c), posts), SeenBy(p))
    requires Where(RowsOf(init, c), Admits(c, p)) == Where(init, Admits(c, p))
    ensures ThreadsFrom(Where(init + [last], Admits(c, p)), posts)
         == Where(ThreadsFrom(RowsOf(init + [last], c), posts), SeenBy(p))
    ensures Where(RowsOf(init + [last], c), Admits(c, p)) == Where(init + [last], Admits(c, p))
  {
    var own, admitted := RowsOf(init, c), Where(init, Admits(c, p));
    WhereSnoc(init, last, RowIn(c));
    WhereSnoc(init, last, Admits(c, p));
    WhereSnoc(own, last, Admits(c, p));
    ThreadsFromSnoc(own, last, posts);
    ThreadsFromSnoc(admitted, last, posts);
    WhereSnoc(ThreadsFrom(own, posts), ThreadFrom(last, posts), SeenBy(p));
    assert own + [] == own && admitted + [] == admitted;
  }

  lemma ThreadsFromSnoc(rows: seq<ThreadRow>, row: ThreadRow, posts: seq<MessageRow>)
    ensures ThreadsFrom(rows + [row], posts) == ThreadsFrom(rows, posts) + [ThreadFrom(row, posts)]
  {
  }

  lemma AdmittedInOrder(s: Tables, log: seq<Event>, c: ConversationId, p: ParticipantId)
    requires TablesMatch(s, log)
    ensures ParticipantThreads(s, c, p) == Where(s.threads, Admits(c, p))
    ensures ListThreads(s, c) == RowsOf(s.threads, c)
  {
    RowsOfConversation(log, |log|, c);
    AdmittedOf(s.threads, [], c, p);
    assert SortedBy(RowsOf(s.threads, c), RowSequence());
    WhereSorted(RowsOf(s.threads, c), Admits(c, p), RowSequence());
    SortedStaysPut(Where(s.threads, Admits(c, p)), RowSequence());
    SortedStaysPut(RowsOf(s.threads, c), RowSequence());
  }

  // In Postgres: the messages

  /** Leaving out threads p cannot see leaves a visible thread's messages alone. */
  lemma {:induction false} VisiblePostsOf(s: Tables, rows: seq<MessageRow>, c: ConversationId, p: ParticipantId,
                                         t: ThreadId)
    requires AdmitsThread(s, c, p, t)
    ensures ForThread(Where(rows, VisiblePost(s, c, p)), t) == ForThread(PostsOf(rows, c), t)
  {
    if rows != [] {
      var init, last := rows[..|rows| - 1], rows[|rows| - 1];
      assert rows == init + [last];
      VisiblePostsOf(s, init, c, p, t);
      OnePost(init, last, c, t);
      var visible := Where(init, VisiblePost(s, c, p));
      PostsOfSnoc(visible, last, c, t);
      assert visible + [] == visible;
    }
  }

  lemma VisibleMessages(s: Tables, log: seq<Event>, c: ConversationId, p: ParticipantId, t: ThreadId)
    requires TablesMatch(s, log) && AdmitsThread(s, c, p, t)
    ensures ForThread(ParticipantMessages(s, c, p), t) == Messages(log, c, t)
  {
    PostsInOrder(log);
    WhereSorted(s.messages, VisiblePost(s, c, p), PostSequence());
    SortedStaysPut(Where(s.messages, VisiblePost(s, c, p)), PostSequence());
    VisiblePostsOf(s, s.messages, c, p, t);
    PostsByThread(log, c, t);
  }

  // In Postgres: one conversation

  lemma ListedThreadsOf(s: Tables, log: seq<Event>, c: ConversationId)
    requires TablesMatch(s, log)
    ensures ThreadsFrom(ListThreads(s, c), ListMessages(s, c)) == Threads(log, c)
  {
    ListedThreads(s, log, c);
    var rows := ListThreads(s, c);
    forall j | 0 <= j < |rows|
      ensures ThreadFrom(rows[j], ListMessages(s, c)) == Threads(log, c)[j]
    {
      ListedMessages(s, log, c, rows[j].id);
    }
  }

  /** The two filtered queries, regrouped, give the threads p sees in the whole view. */
  lemma ParticipantThreadsMatch(s: Tables, log: seq<Event>, c: ConversationId, p: ParticipantId)
    requires TablesMatch(s, log)
    ensures ThreadsFrom(ParticipantThreads(s, c, p), ParticipantMessages(s, c, p))
         == Visible(View(log, c), p).threads
  {
    AdmittedInOrder(s, log, c, p);
    var rows := Where(s.threads, Admits(c, p));
    var all := ListMessages(s, c);
    forall i | 0 <= i < |rows|
      ensures ThreadFrom(rows[i], ParticipantMessages(s, c, p)) == ThreadFrom(rows[i], all)
    {
      assert rows[i] in s.threads && Admits(c, p)(rows[i]);
      var k :| 0 <= k < |s.threads| && s.threads[k] == rows[i];
      assert AdmitsThread(s, c, p, rows[i].id);
      VisibleMessages(s, log, c, p, rows[i].id);
      ListedMessages(s, log, c, rows[i].id);
    }
    assert ThreadsFrom(rows, ParticipantMessages(s, c, p)) == ThreadsFrom(rows, all);
    AdmittedOf(s.threads, all, c, p);
    ListedThreadsOf(s, log, c);
  }

  lemma ViewMatches(s: Tables, log: seq<Event>, p: ParticipantId, c: ConversationId)
    requires TablesMatch(s, log)
    ensures ViewAt(Moments(s, s, s), p, c) == if Created(log, c) then [Visible(View(log, c), p)] else []
  {
    assert RowMatches(s, log, c);
    ParticipantThreadsMatch(s, log, c, p);
  }

  lemma {:induction false} ViewsOneByOne(at: seq<Moments>, p: ParticipantId, ids: seq<ConversationId>,
                                         views: seq<ConversationView>)
    requires |at| == |ids| == |views| && forall i :: 0 <= i < |ids| ==> ViewAt(at[i], p, ids[i]) == [views[i]]
    ensures ViewsAt(at, p, ids) == views
  {
    if ids != [] {
      var n := |ids| - 1;
      var at', ids', views' := at[..n], ids[..n], views[..n];
      assert at == at' + [at[n]] && ids == ids' + [ids[n]] && views == views' + [views[n]];
      assert ViewAt(at[n], p, ids[n]) == [views[n]];
      ViewsOneByOne(at', p, ids', views');
      OneMoreView(at', at[n], p, ids', ids[n], views', views[n]);
    }
  }

  lemma OneMoreView(at: seq<Moments>, m: Moments, p: ParticipantId, ids: seq<ConversationId>, c: ConversationId,
                    views: seq<ConversationView>, v: ConversationView)
    requires |at| == |ids| && ViewsAt(at, p, ids) == views && ViewAt(m, p, c) == [v]
    ensures ViewsAt(at + [m], p, ids + [c]) == views + [v]
  {
    assert (at + [m])[..|at|] == at && (ids + [c])[..|ids|] == ids;
  }

  function Shown(log: seq<Event>, p: ParticipantId, ids: seq<ConversationId>): (r: seq<ConversationView>)
    ensures |r| == |ids| && forall i :: 0 <= i < |r| ==> r[i] == Visible(View(log, ids[i]), p)
  {
    seq(|ids|, i requires 0 <= i < |ids| => Visible(View(log, ids[i]), p))
  }

  /** Whatever conversations the first query named, and however long ago: those that exist are shown as
      p sees them now, in the order named. A conversation p has left since is shown without threads. */
  lemma ViewsOfMatch(s: Tables, log: seq<Event>, p: ParticipantId, ids: seq<ConversationId>)
    requires TablesMatch(s, log) && forall c :: c in ids ==> Created(log, c)
    ensures ViewsOf(s, p, ids) == Shown(log, p, ids)
  {
    var at := seq(|ids|, i => Moments(s, s, s));
    forall i | 0 <= i < |ids| ensures ViewAt(at[i], p, ids[i]) == [Shown(log, p, ids)[i]] {
      ViewMatches(s, log, p, ids[i]);
    }
    ViewsOneByOne(at, p, ids, Shown(log, p, ids));
    assert ViewsOf(s, p, ids) == ViewsAt(at, p, ids);
  }

  // In Postgres: queries that see different states

  /** What p is shown of c when the row, the threads and the messages are read after three different
      prefixes: a thread's messages only if p is in it at the moment the messages are read too. */
  function TornVisible(log: seq<Event>, c: ConversationId, p: ParticipantId, u: nat, k: nat, m: nat)
    : (v: ConversationView)
    requires u <= |log| && k <= |log| && m <= |log|
    ensures |v.threads| == |Where(Threads(log[..k], c), SeenBy(p))|
  {
    var threads := Where(Threads(log[..k], c), SeenBy(p));
    ConversationView(c, Url(log[..u], c),
      seq(|threads|, j requires 0 <= j < |threads| => threads[j].(messages :=
        if p in Participants(log[..m], c, threads[j].id) then Messages(log[..m], c, threads[j].id) else [])))
  }

  lemma {:induction false} HiddenPostsOf(s: Tables, rows: seq<MessageRow>, c: ConversationId, p: ParticipantId,
                                         t: ThreadId)
    requires !AdmitsThread(s, c, p, t)
    ensures ForThread(Where(rows, VisiblePost(s, c, p)), t) == []
  {
    if rows != [] {
      var init, last := rows[..|rows| - 1], rows[|rows| - 1];
      assert rows == init + [last];
      HiddenPostsOf(s, init, c, p, t);
      WhereSnoc(init, last, VisiblePost(s, c, p));
      PostsOfSnoc(Where(init, VisiblePost(s, c, p)), last, c, t);
      assert Where(init, VisiblePost(s, c, p)) + [] == Where(init, VisiblePost(s, c, p));
    }
  }

  lemma AdmittedIsIn(s: Tables, log: seq<Event>, c: ConversationId, p: ParticipantId, t: ThreadId)
    requires WellFormed(log) && TablesMatch(s, log) && AdmitsThread(s, c, p, t)
    ensures p in Participants(log, c, t)
  {
    AdmittedInOrder(s, log, c, p);
    ParticipantThreadsMatch(s, log, c, p);
    var rows := Where(s.threads, Admits(c, p));
    var i :| 0 <= i < |s.threads| && Admits(c, p)(s.threads[i]) && s.threads[i].id == t;
    assert s.threads[i] in rows;
    var j :| 0 <= j < |rows| && rows[j] == s.threads[i];
    VisibleThread(log, c, p, j);
  }

  lemma InIsAdmitted(s: Tables, log: seq<Event>, c: ConversationId, p: ParticipantId, t: ThreadId)
    requires WellFormed(log) && TablesMatch(s, log) && p in Participants(log, c, t)
    ensures AdmitsThread(s, c, p, t)
  {
    AdmittedInOrder(s, log, c, p);
    ParticipantThreadsMatch(s, log, c, p);
    var rows, threads := Where(s.threads, Admits(c, p)), Visible(View(log, c), p).threads;
    SeenIfIn(log, c, p, t);
    var j :| 0 <= j < |threads| && threads[j].id == t;
    assert rows[j] in rows && rows[j].id == t;
    var i :| 0 <= i < |s.threads| && s.threads[i] == rows[j];
  }

  lemma SeenIfIn(log: seq<Event>, c: ConversationId, p: ParticipantId, t: ThreadId)
    requires WellFormed(log) && p in Participants(log, c, t)
    ensures exists j :: 0 <= j < |Visible(View(log, c), p).threads| && Visible(View(log, c), p).threads[j].id == t
  {
    if !Started(log, c, t) {
      NothingBeforeStart(log, c, t);
    }
    ThreadFound(log, c, t);
    var thread := Threads(log, c)[FindThread(Threads(log, c), t)];
    assert thread in Threads(log, c) && SeenBy(p)(thread);
    var threads := Visible(View(log, c), p).threads;
    assert thread in threads;
    var j :| 0 <= j < |threads| && threads[j] == thread;
  }

  lemma MessagesSeen(s: Tables, log: seq<Event>, c: ConversationId, p: ParticipantId, t: ThreadId)
    requires WellFormed(log) && TablesMatch(s, log)
    ensures ForThread(ParticipantMessages(s, c, p), t)
         == if p in Participants(log, c, t) then Messages(log, c, t) else []
  {
    if AdmitsThread(s, c, p, t) {
      AdmittedIsIn(s, log, c, p, t);
      VisibleMessages(s, log, c, p, t);
    } else {
      if p in Participants(log, c, t) {
        InIsAdmitted(s, log, c, p, t);
      }
      PostsInOrder(log);
      WhereSorted(s.messages, VisiblePost(s, c, p), PostSequence());
      SortedStaysPut(Where(s.messages, VisiblePost(s, c, p)), PostSequence());
      HiddenPostsOf(s, s.messages, c, p, t);
    }
  }

  lemma TornViewAt(log: seq<Event>, c: ConversationId, p: ParticipantId, u: nat, k: nat, m: nat, at: Moments)
    requires WellFormed(log) && u <= |log| && k <= |log| && m <= |log|
    requires TablesMatch(at.row, log[..u]) && TablesMatch(at.threads, log[..k]) && TablesMatch(at.messages, log[..m])
    ensures ViewAt(at, p, c) == if Created(log[..u], c) then [TornVisible(log, c, p, u, k, m)] else []
  {
    assert RowMatches(at.row, log[..u], c);
    ParticipantThreadsMatch(at.threads, log[..k], c, p);
    WellFormedPrefix(log, m);
    var rows, posts := ParticipantThreads(at.threads, c, p), ParticipantMessages(at.messages, c, p);
    var whole := ThreadsFrom(rows, ParticipantMessages(at.threads, c, p));
    var torn := TornVisible(log, c, p, u, k, m).threads;
    forall j | 0 <= j < |rows| ensures ThreadsFrom(rows, posts)[j] == torn[j] {
      assert whole[j] == Visible(View(log[..k], c), p).threads[j];
      MessagesSeen(at.messages, log[..m], c, p, rows[j].id);
    }
    assert ThreadsFrom(rows, posts) == torn;
  }

  // In Postgres: the join

  /** The join collects rows for exactly the conversations p takes part in. */
  lemma GroupIffTakesPart(s: Tables, log: seq<Event>, p: ParticipantId, c: ConversationId)
    requires WellFormed(log) && TablesMatch(s, log)
    ensures Group(s, c, p) != [] <==> TakesPart(log, c, p)
  {
    GroupNonEmpty(s, c, p);
    AdmittedInOrder(s, log, c, p);
    ParticipantThreadsMatch(s, log, c, p);
    VisibleIffTakesPart(log, c, p);
    assert RowMatches(s, log, c);
    if t :| Started(log, c, t) && p in Participants(log, c, t) {
      StartedIsCreated(log, c, t);
    }
  }

  lemma {:induction false} PostedInRows(posts: seq<MessageRow>, row: ThreadRow, at: Time)
    ensures HasPostAt(posts, row, at) <==> PostedAt(ForThread(PostsOf(posts, row.conversation), row.id), at)
  {
    if posts != [] {
      var init, last := posts[..|posts| - 1], posts[|posts| - 1];
      assert posts == init + [last];
      PostedInRows(init, row, at);
      OnePost(init, last, row.conversation, row.id);
      PostedStep(init, last, row, at);
    }
  }

  lemma PostedStep(init: seq<MessageRow>, last: MessageRow, row: ThreadRow, at: Time)
    requires HasPostAt(init, row, at) <==> PostedAt(ForThread(PostsOf(init, row.conversation), row.id), at)
    ensures HasPostAt(init + [last], row, at)
       <==> PostedAt(ForThread(PostsOf(init + [last], row.conversation), row.id), at)
  {
    var messages := ForThread(PostsOf(init, row.conversation), row.id);
    HasPostSnoc(init, last, row, at);
    OnePost(init, last, row.conversation, row.id);
    PostedSnoc(messages, MessageView(last.author, last.text, last.postedAt), at);
    assert messages + [] == messages;
  }

  lemma HasPostSnoc(posts: seq<MessageRow>, post: MessageRow, row: ThreadRow, at: Time)
    ensures HasPostAt(posts + [post], row, at)
       <==> HasPostAt(posts, row, at) || (PostedTo(row)(post) && post.postedAt == at)
  {
    var all := posts + [post];
    if i :| 0 <= i < |posts| && PostedTo(row)(posts[i]) && posts[i].postedAt == at {
      assert all[i] == posts[i];
    }
    assert all[|posts|] == post;
  }

  lemma PostedSnoc(messages: seq<MessageView>, message: MessageView, at: Time)
    ensures PostedAt(messages + [message], at) <==> PostedAt(messages, at) || message.postedAt == at
  {
    assert (messages + [message])[..|messages|] == messages;
    PostedAtLast(messages + [message]);
  }

  /** What p sees of c, thread by thread, is what the admitted rows stand for. */
  lemma AdmittedRowReaches(s: Tables, log: seq<Event>, p: ParticipantId, c: ConversationId, i: nat, at: Time)
    requires TablesMatch(s, log) && i < |Where(s.threads, Admits(c, p))|
    ensures var threads := Visible(View(log, c), p).threads; var row := Where(s.threads, Admits(c, p))[i];
            && i < |threads|
            && (HasPostAt(s.messages, row, at) <==> PostedAt(threads[i].messages, at))
  {
    AdmittedInOrder(s, log, c, p);
    ParticipantThreadsMatch(s, log, c, p);
    var row := Where(s.threads, Admits(c, p))[i];
    assert row in Where(s.threads, Admits(c, p));
    PostedInRows(s.messages, row, at);
    PostsByThread(log, c, row.id);
    VisibleThread(log, c, p, i);
  }

  lemma VisibleCounts(s: Tables, log: seq<Event>, p: ParticipantId, c: ConversationId)
    requires WellFormed(log) && TablesMatch(s, log)
    ensures |Visible(View(log, c), p).threads| == |Where(s.threads, Admits(c, p))|
    ensures Where(s.threads, Admits(c, p)) != [] ==> c in s.conversations
  {
    AdmittedInOrder(s, log, c, p);
    ParticipantThreadsMatch(s, log, c, p);
    GroupIffTakesPart(s, log, p, c);
    VisibleIffTakesPart(log, c, p);
    GroupNonEmpty(s, c, p);
  }

  /** The join reaches a message time exactly when a visible thread shows it. */
  lemma JoinReachesVisible(s: Tables, log: seq<Event>, p: ParticipantId, c: ConversationId, at: Time)
    requires WellFormed(log) && TablesMatch(s, log)
    ensures JoinedAt(Group(s, c, p), p, at) <==> PostedIn(Visible(View(log, c), p).threads, at)
  {
    GroupAt(s, c, p, at);
    VisibleCounts(s, log, p, c);
    var rows, threads := Where(s.threads, Admits(c, p)), Visible(View(log, c), p).threads;
    forall i | 0 <= i < |rows| ensures HasPostAt(s.messages, rows[i], at) <==> PostedAt(threads[i].messages, at) {
      AdmittedRowReaches(s, log, p, c, i, at);
    }
  }

  /** Go's zero time under a key that SQL leaves at -infinity or before it. */
  function Floored(key: Option<Time>): Time {
    if key.None? || key.value < ZERO_TIME then ZERO_TIME else key.value
  }

  /** Raised to the zero time, the SQL key is the in-memory one; it is that key as it stands exactly when
      a visible thread has a message not before the zero time. */
  lemma JoinKeyIsNewest(s: Tables, log: seq<Event>, p: ParticipantId, c: ConversationId)
    requires WellFormed(log) && TablesMatch(s, log)
    ensures var newest := Newest(Visible(View(log, c), p).threads);
            && Floored(JoinKey(s, c, p)) == newest
            && (JoinKey(s, c, p) == Some(newest)
                <==> exists at :: at >= ZERO_TIME && PostedIn(Visible(View(log, c), p).threads, at))
  {
    var rows, threads := Group(s, c, p), Visible(View(log, c), p).threads;
    MaxIsGreatest(rows, p);
    forall at ensures JoinedAt(rows, p, at) <==> PostedIn(threads, at) {
      JoinReachesVisible(s, log, p, c, at);
    }
  }

  /** GetByParticipant against Postgres is exact too, whether or not every visible thread has a message. */
  lemma PostgresAnswers(s: Tables, log: seq<Event>, p: ParticipantId, ids: seq<ConversationId>)
    requires WellFormed(log) && TablesMatch(s, log) && Selected(s, p, ids)
    ensures Answers(log, p, ViewsOf(s, p, ids))
  {
    var views := ViewsOf(s, p, ids);
    forall c | c in ids ensures Created(log, c) {
      assert Group(s, c, p) != [];
      assert RowMatches(s, log, c);
    }
    ViewsOfMatch(s, log, p, ids);
    forall c ensures IsListed(views, c) <==> TakesPart(log, c, p) {
      GroupIffTakesPart(s, log, p, c);
      if c in ids {
        var i :| 0 <= i < |ids| && ids[i] == c;
        assert views[i].id == c;
      }
    }
    forall i, j | 0 <= i < j < |views| ensures Newest(views[i].threads) >= Newest(views[j].threads) {
      assert NotOlder(JoinKey(s, ids[i], p), JoinKey(s, ids[j], p));
      KeysInOrder(s, log, p, ids[i], ids[j]);
    }
  }

  /** The SQL order is never at odds with the in-memory one. */
  lemma KeysInOrder(s: Tables, log: seq<Event>, p: ParticipantId, c: ConversationId, d: ConversationId)
    requires WellFormed(log) && TablesMatch(s, log) && NotOlder(JoinKey(s, c, p), JoinKey(s, d, p))
    ensures Newest(Visible(View(log, c), p).threads) >= Newest(Visible(View(log, d), p).threads)
  {
    JoinKeyIsNewest(s, log, p, c);
    JoinKeyIsNewest(s, log, p, d);
  }

  /** The two stores list the same views, and in the same order unless two conversations tie. */
  lemma ListingsAgree(runs: seq<seq<Event>>, p: ParticipantId, views: seq<ConversationView>, ids: seq<ConversationId>)
    requires WellFormed(Concat(runs))
    requires MemoryProjection.Lists(MemoryAfter(runs).state, p, views)
    requires TablesAfter(runs).Some? && Selected(TablesAfter(runs).value, p, ids)
    ensures var rows := ViewsOf(TablesAfter(runs).value, p, ids);
            && (forall v :: v in views <==> v in rows)
            && ((forall i, j :: 0 <= i < j < |views| ==> Newest(views[i].threads) != Newest(views[j].threads))
                ==> views == rows)
  {
    BothFollow(runs);
    var log := Concat(runs);
    MemoryAnswers(MemoryAfter(runs).state, log, p, views);
    PostgresAnswers(TablesAfter(runs).value, log, p, ids);
    AnswersUnique(log, p, views, ViewsOf(TablesAfter(runs).value, p, ids));
  }
}
