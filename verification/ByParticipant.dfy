/** What a list of one participant's conversations has to be, whichever store computes it. */
module ByParticipant {
  import opened Collections
  import opened Domain
  import opened ReadModel

  function SeenBy(p: ParticipantId): ThreadView -> bool {
    (thread: ThreadView) => p in thread.participants
  }

  /** The view with only the threads p takes part in. */
  function Visible(v: ConversationView, p: ParticipantId): ConversationView {
    v.(threads := Where(v.threads, SeenBy(p)))
  }

  predicate PostedAt(messages: seq<MessageView>, at: Time) {
    exists i :: 0 <= i < |messages| && messages[i].postedAt == at
  }

  predicate PostedIn(threads: seq<ThreadView>, at: Time) {
    exists i :: 0 <= i < |threads| && PostedAt(threads[i].messages, at)
  }

  lemma PostedAtLast(messages: seq<MessageView>)
    requires messages != []
    ensures forall at ::
      PostedAt(messages, at) <==> PostedAt(messages[..|messages| - 1], at) || messages[|messages| - 1].postedAt == at
  {
    var init := messages[..|messages| - 1];
    forall at | PostedAt(init, at) ensures PostedAt(messages, at) {
      var i :| 0 <= i < |init| && init[i].postedAt == at;
      assert messages[i].postedAt == at;
    }
  }

  lemma PostedInLast(threads: seq<ThreadView>)
    requires threads != []
    ensures forall at ::
      PostedIn(threads, at) <==> PostedIn(threads[..|threads| - 1], at) || PostedAt(threads[|threads| - 1].messages, at)
  {
    var init := threads[..|threads| - 1];
    forall at | PostedIn(init, at) ensures PostedIn(threads, at) {
      var i :| 0 <= i < |init| && PostedAt(init[i].messages, at);
      assert PostedAt(threads[i].messages, at);
    }
  }

  /** The latest message time, never before ZERO_TIME. */
  function NewestOf(messages: seq<MessageView>): (r: Time)
    ensures r >= ZERO_TIME && (r == ZERO_TIME || PostedAt(messages, r))
    ensures forall at :: PostedAt(messages, at) ==> at <= r
  {
    if messages == [] then ZERO_TIME
    else
      var last, before := messages[|messages| - 1], NewestOf(messages[..|messages| - 1]);
      PostedAtLast(messages);
      if last.postedAt > before then last.postedAt else before
  }

  function Newest(threads: seq<ThreadView>): (r: Time)
    ensures r >= ZERO_TIME && (r == ZERO_TIME || PostedIn(threads, r))
    ensures forall at :: PostedIn(threads, at) ==> at <= r
  {
    if threads == [] then ZERO_TIME
    else
      var last, before := NewestOf(threads[|threads| - 1].messages), Newest(threads[..|threads| - 1]);
      PostedInLast(threads);
      if last > before then last else before
  }

  ghost predicate TakesPart(log: seq<Event>, c: ConversationId, p: ParticipantId) {
    exists t :: Started(log, c, t) && p in Participants(log, c, t)
  }

  predicate IsListed(views: seq<ConversationView>, c: ConversationId) {
    exists i :: 0 <= i < |views| && views[i].id == c
  }

  /** Each conversation p takes part in once and no other; of each, the threads p takes part in, in
      creation order; the conversations with the most recent visible message first. */
  ghost predicate Answers(log: seq<Event>, p: ParticipantId, views: seq<ConversationView>) {
    && (forall i, j :: 0 <= i < j < |views| ==> views[i].id != views[j].id)
    && (forall c :: IsListed(views, c) <==> TakesPart(log, c, p))
    && (forall i :: 0 <= i < |views| ==> views[i] == Visible(View(log, views[i].id), p))
    && (forall i, j :: 0 <= i < j < |views| ==> Newest(views[i].threads) >= Newest(views[j].threads))
  }

  lemma VisibleIffTakesPart(log: seq<Event>, c: ConversationId, p: ParticipantId)
    requires WellFormed(log)
    ensures Visible(View(log, c), p).threads != [] <==> TakesPart(log, c, p)
  {
    var threads, starts := Threads(log, c), StartsOf(log, c);
    var seen := Where(threads, SeenBy(p));
    if seen != [] {
      assert seen[0] in threads && SeenBy(p)(seen[0]);
      var i :| 0 <= i < |threads| && threads[i] == seen[0];
      assert Starts(log[starts[i]], c, threads[i].id);
      assert Started(log, c, threads[i].id) && p in Participants(log, c, threads[i].id);
    }
    if t :| Started(log, c, t) && p in Participants(log, c, t) {
      ThreadFound(log, c, t);
      var thread := threads[FindThread(threads, t)];
      assert thread in threads && SeenBy(p)(thread);
      assert thread in seen;
    }
  }

  /** What can be seen of a thread is what the log says of it. */
  lemma VisibleThread(log: seq<Event>, c: ConversationId, p: ParticipantId, i: nat)
    requires i < |Visible(View(log, c), p).threads|
    ensures var thread := Visible(View(log, c), p).threads[i];
            && Started(log, c, thread.id) && p in thread.participants
            && thread.participants == Participants(log, c, thread.id)
            && thread.messages == Messages(log, c, thread.id)
  {
    var threads, starts := Threads(log, c), StartsOf(log, c);
    var thread := Where(threads, SeenBy(p))[i];
    assert thread in threads && SeenBy(p)(thread);
    var j :| 0 <= j < |threads| && threads[j] == thread;
    assert Starts(log[starts[j]], c, thread.id);
  }

  /** Two answers differ at most in how they order conversations whose newest messages are equally old. */
  lemma AnswersUnique(log: seq<Event>, p: ParticipantId, a: seq<ConversationView>, b: seq<ConversationView>)
    requires Answers(log, p, a) && Answers(log, p, b)
    ensures forall v :: v in a <==> v in b
    ensures (forall i, j :: 0 <= i < j < |a| ==> Newest(a[i].threads) != Newest(a[j].threads)) ==> a == b
  {
    AnswersShare(log, p, a, b);
    AnswersShare(log, p, b, a);
    if forall i, j :: 0 <= i < j < |a| ==> Newest(a[i].threads) != Newest(a[j].threads) {
      StrictlyRecent(log, p, a);
      forall i, j | 0 <= i < j < |b| ensures Newest(b[i].threads) != Newest(b[j].threads) {
        assert b[i] in b && b[j] in b && b[i] in a && b[j] in a;
        var k :| 0 <= k < |a| && a[k] == b[i];
        var l :| 0 <= l < |a| && a[l] == b[j];
        assert k != l;
      }
      StrictlyRecent(log, p, b);
      SortedUnique(a, b, Recency());
    }
  }

  lemma StrictlyRecent(log: seq<Event>, p: ParticipantId, a: seq<ConversationView>)
    requires Answers(log, p, a)
    requires forall i, j :: 0 <= i < j < |a| ==> Newest(a[i].threads) != Newest(a[j].threads)
    ensures StrictlySortedBy(a, Recency())
  {
    forall i, j | 0 <= i < j < |a| ensures Recency()(a[i]) < Recency()(a[j]) {
      assert Newest(a[i].threads) >= Newest(a[j].threads);
    }
  }

  function Recency(): ConversationView -> int {
    (v: ConversationView) => -Newest(v.threads)
  }

  lemma AnswersShare(log: seq<Event>, p: ParticipantId, a: seq<ConversationView>, b: seq<ConversationView>)
    requires Answers(log, p, a) && Answers(log, p, b)
    ensures forall v :: v in a ==> v in b
  {
    forall v | v in a ensures v in b {
      var i :| 0 <= i < |a| && a[i] == v;
      assert IsListed(a, v.id);
      assert IsListed(b, v.id);
      var j :| 0 <= j < |b| && b[j].id == v.id;
      assert a[i] == b[j];
    }
  }

  // The latest message times the in-memory projection keeps by thread id alone

  lemma {:induction false} NoPostBeforeStart(log: seq<Event>, t: ThreadId)
    requires WellFormed(log) && forall c :: !Started(log, c, t)
    ensures Latest(log, t) == ZERO_TIME
  {
    if log != [] {
      var init, e := log[..|log| - 1], log[|log| - 1];
      assert log == init + [e];
      WellFormedSnoc(init, e);
      forall c ensures !Started(init, c, t) {
        StartedSnoc(init, e, c, t);
      }
      NoPostBeforeStart(init, t);
      if e.MessagePosted? && e.thread == t {
        ChangeTarget(init, e);
      }
    }
  }

  /** A message's thread id settles its conversation. */
  lemma OneHome(log: seq<Event>, c: ConversationId, d: ConversationId, t: ThreadId)
    requires WellFormed(log) && Started(log, c, t) && Started(log, d, t)
    ensures c == d
  {
    var i :| 0 <= i < |log| && Starts(log[i], c, t);
    var j :| 0 <= j < |log| && Starts(log[j], d, t);
    assert Clash(log[i], log[j]) && Clash(log[j], log[i]);
  }

  /** What is kept for a thread is the newest of its messages. */
  lemma {:induction false} LatestIsNewest(log: seq<Event>, c: ConversationId, t: ThreadId)
    requires WellFormed(log) && Started(log, c, t)
    ensures Latest(log, t) == NewestOf(Messages(log, c, t))
  {
    var init, e := log[..|log| - 1], log[|log| - 1];
    assert log == init + [e];
    WellFormedSnoc(init, e);
    Snoc(init, e, c, t);
    if Started(init, c, t) {
      LatestIsNewest(init, c, t);
      LatestStep(init, e, c, t);
    } else {
      NewlyStarted(init, e, c, t);
    }
  }

  lemma LatestStep(log: seq<Event>, e: Event, c: ConversationId, t: ThreadId)
    requires WellFormed(log + [e]) && Started(log, c, t)
    requires Latest(log, t) == NewestOf(Messages(log, c, t))
    ensures Latest(log + [e], t) == NewestOf(Messages(log + [e], c, t))
  {
    LatestSnoc(log, e, t);
    Snoc(log, e, c, t);
    if e.MessagePosted? && e.thread == t {
      ChangeTarget(log, e);
      OneHome(log, c, e.conversation, t);
      NewestSnoc(Messages(log, c, t), MessageOf(e));
    } else {
      assert Messages(log, c, t) + [] == Messages(log, c, t);
    }
  }

  lemma NewestSnoc(messages: seq<MessageView>, message: MessageView)
    ensures NewestOf(messages + [message])
         == if message.postedAt > NewestOf(messages) then message.postedAt else NewestOf(messages)
  {
    assert (messages + [message])[..|messages|] == messages;
  }

  lemma NewlyStarted(log: seq<Event>, e: Event, c: ConversationId, t: ThreadId)
    requires WellFormed(log + [e]) && !Started(log, c, t) && Started(log + [e], c, t)
    ensures e.ThreadStarted? && Latest(log, t) == ZERO_TIME && Messages(log, c, t) == []
  {
    WellFormedSnoc(log, e);
    var i :| 0 <= i < |log + [e]| && Starts((log + [e])[i], c, t);
    assert i == |log|;
    forall d ensures !Started(log, d, t) {
      if j :| 0 <= j < |log| && Starts(log[j], d, t) {
        assert Clash(log[j], e);
      }
    }
    NoPostBeforeStart(log, t);
    NothingBeforeStart(log, c, t);
  }
}
