/** What a conversation looks like after a log of events, said one thread at a time and with no
    store in mind. Event number i of a log (from 0) carries sequence i + 1. Both projections and
    the aggregate are proved against these definitions. */
module ReadModel {
  import opened Collections
  import opened Domain

  // Order of events

  predicate Starts(e: Event, c: ConversationId, t: ThreadId) {
    e.ThreadStarted? && e.conversation == c && e.thread == t
  }

  /** e cannot stand in a log unless an event d with Needs(e, d) stands before it. */
  predicate Needs(e: Event, d: Event) {
    match e
    case ConversationCreated(_, _, _, _) => false
    case ThreadStarted(c, _, _, _, _, _) => d.ConversationCreated? && d.conversation == c
    case MessagePosted(c, t, _, _, _, _) => Starts(d, c, t)
    case ParticipantAdded(c, t, _, _) => Starts(d, c, t)
    case ParticipantRemoved(c, t, _, _) => Starts(d, c, t)
  }

  /** Two events that introduce the same conversation or the same thread. */
  predicate Clash(d: Event, e: Event) {
    || (d.ConversationCreated? && e.ConversationCreated? && d.conversation == e.conversation)
    || (d.ThreadStarted? && e.ThreadStarted? && d.thread == e.thread)
  }

  /** What the event needs stands in the log already. */
  ghost predicate Grounded(log: seq<Event>, e: Event) {
    e.ConversationCreated? || exists j :: 0 <= j < |log| && Needs(e, log[j])
  }

  ghost predicate Admissible(log: seq<Event>, e: Event) {
    && Grounded(log, e)
    && (forall j :: 0 <= j < |log| ==> !Clash(log[j], e))
  }

  /** Every conversation is created once and before its threads, every thread started once and
      before its messages and membership changes. */
  ghost predicate WellFormed(log: seq<Event>) {
    && (forall i :: 0 <= i < |log| ==> Grounded(log[..i], log[i]))
    && (forall i, j :: 0 <= j < i < |log| ==> !Clash(log[j], log[i]))
  }

  ghost predicate Created(log: seq<Event>, c: ConversationId) {
    exists i :: 0 <= i < |log| && log[i].ConversationCreated? && log[i].conversation == c
  }

  ghost predicate Started(log: seq<Event>, c: ConversationId, t: ThreadId) {
    exists i :: 0 <= i < |log| && Starts(log[i], c, t)
  }

  lemma WellFormedPrefix(log: seq<Event>, k: nat)
    requires WellFormed(log) && k <= |log|
    ensures WellFormed(log[..k])
  {
    forall i | 0 <= i < k ensures Grounded(log[..k][..i], log[..k][i]) {
      assert log[..k][..i] == log[..i];
    }
    forall i, j | 0 <= j < i < k ensures !Clash(log[..k][j], log[..k][i]) {
      assert !Clash(log[j], log[i]);
    }
  }

  lemma WellFormedSnoc(log: seq<Event>, e: Event)
    ensures WellFormed(log + [e]) <==> WellFormed(log) && Admissible(log, e)
  {
    var all := log + [e];
    assert all[..|log|] == log && all[|log|] == e;
    if WellFormed(all) {
      WellFormedPrefix(all, |log|);
      assert Grounded(all[..|log|], all[|log|]);
      forall j | 0 <= j < |log| ensures !Clash(log[j], e) {
        assert !Clash(all[j], all[|log|]);
      }
    }
    if WellFormed(log) && Admissible(log, e) {
      forall i | 0 <= i < |all| ensures Grounded(all[..i], all[i]) {
        assert i < |log| ==> all[..i] == log[..i] && Grounded(log[..i], log[i]);
      }
      forall i, j | 0 <= j < i < |all| ensures !Clash(all[j], all[i]) {
        if i < |log| {
          assert !Clash(log[j], log[i]);
        }
      }
    }
  }

  lemma StartedIsCreated(log: seq<Event>, c: ConversationId, t: ThreadId)
    requires WellFormed(log) && Started(log, c, t)
    ensures Created(log, c)
  {
    var i :| 0 <= i < |log| && Starts(log[i], c, t);
    assert Grounded(log[..i], log[i]);
    var j :| 0 <= j < i && Needs(log[i], log[..i][j]);
    assert log[j].ConversationCreated?;
  }

  // The view

  predicate Concerns(e: Event, c: ConversationId, t: ThreadId) {
    !e.ConversationCreated? && e.conversation == c && e.thread == t
  }

  /** The participant list of thread t of c after one more event. */
  function MembershipStep(members: seq<ParticipantId>, e: Event, c: ConversationId, t: ThreadId): seq<ParticipantId> {
    if !Concerns(e, c, t) then members
    else match e
      case ThreadStarted(_, _, _, _, _, _) => Members(e)
      case ParticipantAdded(_, _, p, _) => members + [p]
      case ParticipantRemoved(_, _, p, _) => Without(members, p)
      case _ => members
  }

  function Participants(log: seq<Event>, c: ConversationId, t: ThreadId): seq<ParticipantId> {
    if log == [] then []
    else MembershipStep(Participants(log[..|log| - 1], c, t), log[|log| - 1], c, t)
  }

  function MessageOf(e: Event): MessageView
    requires e.MessagePosted?
  {
    MessageView(e.author, e.text, e.at)
  }

  function Messages(log: seq<Event>, c: ConversationId, t: ThreadId): seq<MessageView> {
    if log == [] then []
    else
      var e := log[|log| - 1];
      Messages(log[..|log| - 1], c, t) + (if Concerns(e, c, t) && e.MessagePosted? then [MessageOf(e)] else [])
  }

  function Url(log: seq<Event>, c: ConversationId): string {
    if log == [] then ""
    else
      var e := log[|log| - 1];
      if e.ConversationCreated? && e.conversation == c then e.url else Url(log[..|log| - 1], c)
  }

  /** The latest message time of thread t, in whatever conversation, never before ZERO_TIME. */
  function Latest(log: seq<Event>, t: ThreadId): Time {
    if log == [] then ZERO_TIME
    else
      var e, before := log[|log| - 1], Latest(log[..|log| - 1], t);
      if e.MessagePosted? && e.thread == t && e.at > before then e.at else before
  }

  /** Positions of the events that start a thread of c. */
  function StartsOf(log: seq<Event>, c: ConversationId): (r: seq<nat>)
    ensures forall j :: 0 <= j < |r| ==> r[j] < |log| && log[r[j]].ThreadStarted? && log[r[j]].conversation == c
    ensures forall i, j :: 0 <= i < j < |r| ==> r[i] < r[j]
  {
    if log == [] then []
    else
      var e := log[|log| - 1];
      StartsOf(log[..|log| - 1], c) + (if e.ThreadStarted? && e.conversation == c then [|log| - 1] else [])
  }

  /** The thread the event at i started, as it stands after the whole log. */
  function ThreadAt(log: seq<Event>, i: nat): ThreadView
    requires i < |log| && log[i].ThreadStarted?
  {
    var e := log[i];
    ThreadView(e.thread, e.title, Participants(log, e.conversation, e.thread), Messages(log, e.conversation, e.thread))
  }

  function Threads(log: seq<Event>, c: ConversationId): (r: seq<ThreadView>)
    ensures |r| == |StartsOf(log, c)|
    ensures forall j :: 0 <= j < |r| ==> r[j] == ThreadAt(log, StartsOf(log, c)[j])
  {
    var starts := StartsOf(log, c);
    seq(|starts|, j requires 0 <= j < |starts| => ThreadAt(log, starts[j]))
  }

  function View(log: seq<Event>, c: ConversationId): ConversationView {
    ConversationView(c, Url(log, c), Threads(log, c))
  }

  // One more event, piece by piece

  lemma Snoc(log: seq<Event>, e: Event, c: ConversationId, t: ThreadId)
    ensures Participants(log + [e], c, t) == MembershipStep(Participants(log, c, t), e, c, t)
    ensures Messages(log + [e], c, t)
         == Messages(log, c, t) + (if Concerns(e, c, t) && e.MessagePosted? then [MessageOf(e)] else [])
    ensures Url(log + [e], c) == if e.ConversationCreated? && e.conversation == c then e.url else Url(log, c)
    ensures StartsOf(log + [e], c)
         == StartsOf(log, c) + (if e.ThreadStarted? && e.conversation == c then [|log|] else [])
  {
    assert (log + [e])[..|log|] == log;
  }

  lemma LatestSnoc(log: seq<Event>, e: Event, t: ThreadId)
    ensures Latest(log + [e], t)
         == if e.MessagePosted? && e.thread == t && e.at > Latest(log, t) then e.at else Latest(log, t)
  {
    assert (log + [e])[..|log|] == log;
  }

  lemma StartedSnoc(log: seq<Event>, e: Event, c: ConversationId, t: ThreadId)
    ensures Started(log + [e], c, t) <==> Started(log, c, t) || Starts(e, c, t)
  {
    var all := log + [e];
    if i :| 0 <= i < |log| && Starts(log[i], c, t) {
      assert Starts(all[i], c, t);
    }
    assert all[|log|] == e;
  }

  lemma {:induction false} NothingBeforeStart(log: seq<Event>, c: ConversationId, t: ThreadId)
    requires WellFormed(log) && !Started(log, c, t)
    ensures Participants(log, c, t) == [] && Messages(log, c, t) == []
  {
    if log != [] {
      var init, e := log[..|log| - 1], log[|log| - 1];
      assert log == init + [e];
      WellFormedSnoc(init, e);
      forall i | 0 <= i < |init| ensures !Starts(init[i], c, t) {
        assert !Starts(log[i], c, t);
      }
      NothingBeforeStart(init, c, t);
      assert !Concerns(e, c, t) by {
        assert !Starts(log[|log| - 1], c, t);
      }
    }
  }

  lemma {:induction false} StartsFound(log: seq<Event>, c: ConversationId, i: nat)
    requires i < |log| && log[i].ThreadStarted? && log[i].conversation == c
    ensures i in StartsOf(log, c)
  {
    if i < |log| - 1 {
      StartsFound(log[..|log| - 1], c, i);
    }
  }

  /** A started thread is in its conversation's view, at exactly one place. */
  lemma ThreadFound(log: seq<Event>, c: ConversationId, t: ThreadId)
    requires WellFormed(log) && Started(log, c, t)
    ensures var ts := Threads(log, c); var i := FindThread(ts, t);
            && i < |ts| && ts[i] == ThreadView(t, ts[i].title, Participants(log, c, t), Messages(log, c, t))
            && forall j :: 0 <= j < |ts| && j != i ==> ts[j].id != t
  {
    var n :| 0 <= n < |log| && Starts(log[n], c, t);
    StartsFound(log, c, n);
    var starts := StartsOf(log, c);
    var k :| 0 <= k < |starts| && starts[k] == n;
    assert Threads(log, c)[k].id == t;
    forall j | 0 <= j < |starts| && j != k ensures Threads(log, c)[j].id != t {
      if starts[j] < n {
        assert !Clash(log[starts[j]], log[n]);
      } else {
        assert !Clash(log[n], log[starts[j]]);
      }
    }
  }

  lemma ThreadAbsent(log: seq<Event>, c: ConversationId, t: ThreadId)
    requires !Started(log, c, t)
    ensures FindThread(Threads(log, c), t) == |Threads(log, c)|
  {
    forall j | 0 <= j < |Threads(log, c)| ensures Threads(log, c)[j].id != t {
      assert !Starts(log[StartsOf(log, c)[j]], c, t);
    }
  }

  /** A thread of the view after one more event, whatever thread the event is about. */
  function ThreadStep(thread: ThreadView, e: Event, c: ConversationId): ThreadView {
    thread.(
      participants := MembershipStep(thread.participants, e, c, thread.id),
      messages := thread.messages + if Concerns(e, c, thread.id) && e.MessagePosted? then [MessageOf(e)] else [])
  }

  lemma OldThreadsSnoc(log: seq<Event>, e: Event, c: ConversationId, j: nat)
    requires j < |Threads(log, c)|
    ensures j < |Threads(log + [e], c)|
    ensures Threads(log + [e], c)[j] == ThreadStep(Threads(log, c)[j], e, c)
  {
    Snoc(log, e, c, Threads(log, c)[j].id);
    assert StartsOf(log + [e], c)[j] == StartsOf(log, c)[j];
    assert (log + [e])[StartsOf(log, c)[j]] == log[StartsOf(log, c)[j]];
  }

  lemma ElsewhereSnoc(log: seq<Event>, e: Event, c: ConversationId)
    requires e.conversation != c || e.ConversationCreated?
    ensures Threads(log + [e], c) == Threads(log, c)
  {
    Snoc(log, e, c, "");
    forall j | 0 <= j < |Threads(log, c)| ensures Threads(log + [e], c)[j] == Threads(log, c)[j] {
      OldThreadsSnoc(log, e, c, j);
    }
  }

  lemma StartSnoc(log: seq<Event>, e: Event)
    requires WellFormed(log + [e]) && e.ThreadStarted?
    ensures Threads(log + [e], e.conversation)
         == Threads(log, e.conversation) + [ThreadView(e.thread, e.title, Members(e), [])]
  {
    var c := e.conversation;
    WellFormedSnoc(log, e);
    assert !Started(log, c, e.thread);
    NothingBeforeStart(log, c, e.thread);
    Snoc(log, e, c, e.thread);
    ThreadAbsent(log, c, e.thread);
    forall j | 0 <= j < |Threads(log, c)| ensures Threads(log + [e], c)[j] == Threads(log, c)[j] {
      OldThreadsSnoc(log, e, c, j);
    }
    assert Threads(log + [e], c)[|Threads(log, c)|] == ThreadAt(log + [e], |log|);
  }

  lemma ChangeTarget(log: seq<Event>, e: Event)
    requires WellFormed(log + [e]) && !e.ConversationCreated? && !e.ThreadStarted?
    ensures WellFormed(log) && Started(log, e.conversation, e.thread)
  {
    WellFormedSnoc(log, e);
    var n :| 0 <= n < |log| && Needs(e, log[n]);
    assert Starts(log[n], e.conversation, e.thread);
  }

  lemma ChangeSnoc(log: seq<Event>, e: Event)
    requires WellFormed(log) && !e.ConversationCreated? && !e.ThreadStarted?
    requires Started(log, e.conversation, e.thread)
    ensures var ts := Threads(log, e.conversation); var i := FindThread(ts, e.thread);
            && i < |ts|
            && Threads(log + [e], e.conversation) == ts[i := ThreadStep(ts[i], e, e.conversation)]
  {
    var c := e.conversation;
    var ts, ts' := Threads(log, c), Threads(log + [e], c);
    assert |ts'| == |ts| by {
      Snoc(log, e, c, "");
    }
    forall j | 0 <= j < |ts| ensures ts'[j] == ThreadStep(ts[j], e, c) {
      OldThreadsSnoc(log, e, c, j);
    }
    var i := FindThread(ts, e.thread);
    assert i < |ts| && forall j :: 0 <= j < |ts| && j != i ==> ts[j].id != e.thread by {
      ThreadFound(log, c, e.thread);
    }
    OneThreadSteps(ts, ts', i, e, c);
  }

  lemma OneThreadSteps(ts: seq<ThreadView>, ts': seq<ThreadView>, i: nat, e: Event, c: ConversationId)
    requires |ts'| == |ts| && i < |ts| && !e.ConversationCreated?
    requires forall j :: 0 <= j < |ts| ==> ts'[j] == ThreadStep(ts[j], e, c)
    requires forall j :: 0 <= j < |ts| && j != i ==> ts[j].id != e.thread
    ensures ts' == ts[i := ThreadStep(ts[i], e, c)]
  {
    forall j | 0 <= j < |ts| && j != i ensures ts'[j] == ts[j] {
      assert ts[j].messages + [] == ts[j].messages;
    }
  }
}
