/** The in-memory projection: the class with the source's fields, a function of its state for each
    call, and the proof that applying a well-formed log yields the read model. */
module MemoryProjection {
  import opened Collections
  import opened Domain
  import opened ReadModel
  import opened ByParticipant

  datatype State = State(
    conversations: map<ConversationId, ConversationView>,
    threadSequences: map<ConversationId, map<ThreadId, Sequence>>,
    latestMessageAt: map<ThreadId, Time>,
    checkpoint: Sequence)

  const EMPTY := State(map[], map[], map[], 0)

  /** The state a call leaves behind, and whether it returned without error. */
  datatype Outcome = Outcome(state: State, ok: bool)

  function SequenceKey(sequences: map<ThreadId, Sequence>): ThreadView -> int {
    (t: ThreadView) => if t.id in sequences then sequences[t.id] else 0
  }

  function LatestOf(s: State, t: ThreadId): Time {
    if t in s.latestMessageAt then s.latestMessageAt[t] else ZERO_TIME
  }

  function ChangeThread(s: State, c: ConversationId, i: nat, thread: ThreadView): State
    requires c in s.conversations && i < |s.conversations[c].threads|
  {
    var view := s.conversations[c];
    s.(conversations := s.conversations[c := view.(threads := view.threads[i := thread])])
  }

  /** None when the source returns an error: an unknown conversation or thread. */
  function ApplyEntry(s: State, entry: Entry): Option<State> {
    var e := entry.event;
    var c := e.conversation;
    if e.ConversationCreated? then
      Some(s.(conversations := s.conversations[c := ConversationView(c, e.url, [])]))
    else if c !in s.conversations then None
    else
      var view := s.conversations[c];
      if e.ThreadStarted? then
        var known := if c in s.threadSequences then s.threadSequences[c] else map[];
        var sequences := known[e.thread := entry.sequence];
        var threads := SortBy(view.threads + [ThreadView(e.thread, e.title, Members(e), [])], SequenceKey(sequences));
        Some(s.(threadSequences := s.threadSequences[c := sequences],
                conversations := s.conversations[c := view.(threads := threads)]))
      else
        var i := FindThread(view.threads, e.thread);
        if i == |view.threads| then None
        else
          var thread := view.threads[i];
          match e
          case MessagePosted(_, t, _, _, _, at) =>
            var s' := ChangeThread(s, c, i, thread.(messages := thread.messages + [MessageOf(e)]));
            Some(if at > LatestOf(s, t) then s'.(latestMessageAt := s.latestMessageAt[t := at]) else s')
          case ParticipantAdded(_, _, p, _) =>
            Some(ChangeThread(s, c, i, thread.(participants := thread.participants + [p])))
          case ParticipantRemoved(_, _, p, _) =>
            Some(ChangeThread(s, c, i, thread.(participants := Without(thread.participants, p))))
  }

  /** A failing entry leaves what the entries before it did. */
  function ApplyEach(s: State, entries: seq<Entry>): Outcome
    decreases |entries|
  {
    if entries == [] then Outcome(s, true)
    else
      match ApplyEntry(s, entries[0])
      case None => Outcome(s, false)
      case Some(s') => ApplyEach(s', entries[1..])
  }

  function ApplyEntries(s: State, entries: seq<Entry>): Outcome {
    var r := ApplyEach(s, entries);
    if r.ok && entries != [] then r.(state := r.state.(checkpoint := entries[|entries| - 1].sequence)) else r
  }

  function Get(s: State, c: ConversationId): Result<ConversationView, Error> {
    if c !in s.conversations || s.conversations[c].threads == [] then Failure(ConversationNotFound)
    else Success(s.conversations[c])
  }

  predicate Exists(s: State, c: ConversationId) {
    c in s.conversations && s.conversations[c].threads != []
  }

  // The list of one participant's conversations

  /** Every view is kept under its own id. */
  predicate OwnIds(s: State) {
    forall c :: c in s.conversations ==> s.conversations[c].id == c
  }

  function LatestAmong(s: State, threads: seq<ThreadView>): Time {
    if threads == [] then ZERO_TIME
    else
      var at, before := LatestOf(s, threads[|threads| - 1].id), LatestAmong(s, threads[..|threads| - 1]);
      if at > before then at else before
  }

  /** v is what p sees of a conversation where p takes part in a thread. */
  predicate Sees(s: State, p: ParticipantId, v: ConversationView) {
    v.id in s.conversations && v == Visible(s.conversations[v.id], p) && v.threads != []
  }

  /** The conversations p sees, each once, latest first; ties stand in any order, as map iteration has them. */
  ghost predicate Lists(s: State, p: ParticipantId, views: seq<ConversationView>) {
    && (forall i, j :: 0 <= i < j < |views| ==> views[i].id != views[j].id)
    && (forall i :: 0 <= i < |views| ==> Sees(s, p, views[i]))
    && (forall c :: c in s.conversations && Visible(s.conversations[c], p).threads != [] ==> IsListed(views, c))
    && (forall i, j :: 0 <= i < j < |views| ==> LatestAmong(s, views[i].threads) >= LatestAmong(s, views[j].threads))
  }

  /** GetByParticipant's local pair. */
  datatype Found = Found(view: ConversationView, latestAt: Time)

  function FoundFor(s: State, p: ParticipantId, c: ConversationId): Found
    requires c in s.conversations
  {
    Found(Visible(s.conversations[c], p), LatestAmong(s, Visible(s.conversations[c], p).threads))
  }

  /** The pairs collected once the conversations in `seen` have been looked at. */
  ghost predicate Collected(s: State, p: ParticipantId, seen: set<ConversationId>, entries: seq<Found>) {
    && (forall i, j :: 0 <= i < j < |entries| ==> FoundId()(entries[i]) != FoundId()(entries[j]))
    && (forall f :: f in entries ==>
          f.view.id in seen && Sees(s, p, f.view) && f == FoundFor(s, p, f.view.id))
    && (forall c :: c in seen && c in s.conversations && Visible(s.conversations[c], p).threads != [] ==>
          FoundFor(s, p, c) in entries)
  }

  lemma CollectOne(s: State, p: ParticipantId, seen: set<ConversationId>, entries: seq<Found>, c: ConversationId)
    requires OwnIds(s) && Collected(s, p, seen, entries) && c in s.conversations && c !in seen
    ensures Collected(s, p, seen + {c},
                      entries + if Visible(s.conversations[c], p).threads != [] then [FoundFor(s, p, c)] else [])
  {
    var entries' := entries + if Visible(s.conversations[c], p).threads != [] then [FoundFor(s, p, c)] else [];
    forall i, j | 0 <= i < j < |entries'| ensures FoundId()(entries'[i]) != FoundId()(entries'[j]) {
      assert entries[i] in entries;
    }
  }

  lemma CollectedLists(s: State, p: ParticipantId, entries: seq<Found>, sorted: seq<Found>,
                       views: seq<ConversationView>)
    requires OwnIds(s) && Collected(s, p, s.conversations.Keys, entries)
    requires forall f :: f in sorted <==> f in entries
    requires forall i, j :: 0 <= i < j < |sorted| ==> sorted[i].view.id != sorted[j].view.id
    requires forall i, j :: 0 <= i < j < |sorted| ==> sorted[i].latestAt >= sorted[j].latestAt
    requires |views| == |sorted| && forall i :: 0 <= i < |views| ==> views[i] == sorted[i].view
    ensures Lists(s, p, views)
  {
    forall i | 0 <= i < |views|
      ensures Sees(s, p, views[i]) && sorted[i].latestAt == LatestAmong(s, views[i].threads)
    {
      assert sorted[i] in sorted && sorted[i] in entries;
    }
    forall c | c in s.conversations && Visible(s.conversations[c], p).threads != [] ensures IsListed(views, c) {
      assert FoundFor(s, p, c) in sorted;
      var i :| 0 <= i < |sorted| && sorted[i] == FoundFor(s, p, c);
      assert views[i].id == c;
    }
  }

  function FoundId(): Found -> ConversationId { (f: Found) => f.view.id }
  function LatestFirst(): Found -> int { (f: Found) => -f.latestAt }

  class Projection {
    var conversations: map<ConversationId, ConversationView>
    var threadSequences: map<ConversationId, map<ThreadId, Sequence>>
    var latestMessageAt: map<ThreadId, Time>
    var checkpoint: Sequence

    function Contents(): State
      reads this
    {
      State(conversations, threadSequences, latestMessageAt, checkpoint)
    }

    constructor ()
      ensures Contents() == EMPTY
    {
      conversations, threadSequences, latestMessageAt, checkpoint := map[], map[], map[], 0;
    }

    method ApplyConversationCreated(e: Event, sequence: Sequence)
      requires e.ConversationCreated?
      modifies this
      ensures ApplyEntry(old(Contents()), Entry(sequence, e)) == Some(Contents())
    {
      conversations := conversations[e.conversation := ConversationView(e.conversation, e.url, [])];
    }

    method ApplyThreadStarted(e: Event, sequence: Sequence) returns (ok: bool)
      requires e.ThreadStarted?
      modifies this
      ensures ApplyEntry(old(Contents()), Entry(sequence, e)) == if ok then Some(Contents()) else None
      ensures !ok ==> Contents() == old(Contents())
    {
      if e.conversation !in conversations {
        return false;
      }
      var view := conversations[e.conversation];
      if e.conversation !in threadSequences {
        threadSequences := threadSequences[e.conversation := map[]];
      }
      var sequences: map<ThreadId, Sequence> := threadSequences[e.conversation][e.thread := sequence];
      threadSequences := threadSequences[e.conversation := sequences];
      assert threadSequences == old(threadSequences)[e.conversation := sequences];
      var threads := view.threads + [ThreadView(e.thread, e.title, Members(e), [])];
      threads := SortBy(threads, SequenceKey(sequences));
      conversations := conversations[e.conversation := view.(threads := threads)];
      return true;
    }

    method ApplyMessagePosted(e: Event, sequence: Sequence) returns (ok: bool)
      requires e.MessagePosted?
      modifies this
      ensures ApplyEntry(old(Contents()), Entry(sequence, e)) == if ok then Some(Contents()) else None
      ensures !ok ==> Contents() == old(Contents())
    {
      if e.conversation !in conversations {
        return false;
      }
      var view := conversations[e.conversation];
      for i := 0 to |view.threads|
        invariant forall j :: 0 <= j < i ==> view.threads[j].id != e.thread
        invariant Contents() == old(Contents())
      {
        var thread := view.threads[i];
        if thread.id == e.thread {
          FirstThread(view.threads, e.thread, i);
          view := view.(threads := view.threads[i := thread.(messages := thread.messages + [MessageOf(e)])]);
          conversations := conversations[e.conversation := view];
          if e.at > (if e.thread in latestMessageAt then latestMessageAt[e.thread] else ZERO_TIME) {
            latestMessageAt := latestMessageAt[e.thread := e.at];
          }
          return true;
        }
      }
      return false;
    }

    method ChangeParticipant(e: Event, sequence: Sequence) returns (ok: bool)
      requires e.ParticipantAdded? || e.ParticipantRemoved?
      modifies this
      ensures ApplyEntry(old(Contents()), Entry(sequence, e)) == if ok then Some(Contents()) else None
      ensures !ok ==> Contents() == old(Contents())
    {
      if e.conversation !in conversations {
        return false;
      }
      var view := conversations[e.conversation];
      for i := 0 to |view.threads|
        invariant forall j :: 0 <= j < i ==> view.threads[j].id != e.thread
        invariant Contents() == old(Contents())
      {
        var thread := view.threads[i];
        if thread.id == e.thread {
          FirstThread(view.threads, e.thread, i);
          var participants := [];
          if e.ParticipantAdded? {
            participants := thread.participants + [e.participant];
          } else {
            for j := 0 to |thread.participants|
              invariant participants == Without(thread.participants[..j], e.participant)
              invariant Contents() == old(Contents())
            {
              assert thread.participants[..j + 1][..j] == thread.participants[..j];
              if thread.participants[j] != e.participant {
                participants := participants + [thread.participants[j]];
              }
            }
            assert thread.participants[..|thread.participants|] == thread.participants;
          }
          view := view.(threads := view.threads[i := thread.(participants := participants)]);
          conversations := conversations[e.conversation := view];
          return true;
        }
      }
      return false;
    }

    method Apply(entries: seq<Entry>) returns (ok: bool)
      modifies this
      ensures Outcome(Contents(), ok) == ApplyEntries(old(Contents()), entries)
    {
      for i := 0 to |entries|
        invariant ApplyEach(old(Contents()), entries) == ApplyEach(Contents(), entries[i..])
        invariant checkpoint == old(checkpoint)
      {
        var entry := entries[i];
        assert entries[i..][0] == entry && entries[i..][1..] == entries[i + 1..];
        match entry.event {
          case ConversationCreated(_, _, _, _) =>
            ApplyConversationCreated(entry.event, entry.sequence);
            ok := true;
          case ThreadStarted(_, _, _, _, _, _) =>
            ok := ApplyThreadStarted(entry.event, entry.sequence);
          case MessagePosted(_, _, _, _, _, _) =>
            ok := ApplyMessagePosted(entry.event, entry.sequence);
          case _ =>
            ok := ChangeParticipant(entry.event, entry.sequence);
        }
        if !ok {
          return false;
        }
      }
      if |entries| > 0 {
        checkpoint := entries[|entries| - 1].sequence;
      }
      return true;
    }

    /** The inner loop: p's threads and the latest message time among them. */
    method SeenThreads(threads: seq<ThreadView>, p: ParticipantId) returns (filtered: seq<ThreadView>, latest: Time)
      ensures filtered == Where(threads, SeenBy(p)) && latest == LatestAmong(Contents(), filtered)
    {
      filtered, latest := [], ZERO_TIME;
      for i := 0 to |threads|
        invariant filtered == Where(threads[..i], SeenBy(p)) && latest == LatestAmong(Contents(), filtered)
      {
        var thread := threads[i];
        assert threads[..i + 1][..i] == threads[..i];
        if p in thread.participants {
          assert (filtered + [thread])[..|filtered|] == filtered;
          filtered := filtered + [thread];
          var at := if thread.id in latestMessageAt then latestMessageAt[thread.id] else ZERO_TIME;
          if at > latest {
            latest := at;
          }
        }
      }
      assert threads[..|threads|] == threads;
    }

    method GetByParticipant(p: ParticipantId) returns (views: seq<ConversationView>)
      requires OwnIds(Contents())
      ensures Lists(Contents(), p, views)
    {
      ghost var s := Contents();
      var entries: seq<Found> := [];
      var left := conversations.Keys;
      while left != {}
        invariant left <= conversations.Keys
        invariant Collected(s, p, conversations.Keys - left, entries)
      {
        var c :| c in left;
        var view := conversations[c];
        var filtered, latest := SeenThreads(view.threads, p);
        CollectOne(s, p, conversations.Keys - left, entries, c);
        assert conversations.Keys - left + {c} == conversations.Keys - (left - {c});
        left := left - {c};
        if |filtered| > 0 {
          entries := entries + [Found(ConversationView(view.id, view.url, filtered), latest)];
        } else {
          assert entries + [] == entries;
        }
      }
      assert conversations.Keys - left == conversations.Keys;
      var sorted := SortFound(entries);
      views := [];
      for i := 0 to |sorted|
        invariant |views| == i && forall j :: 0 <= j < i ==> views[j] == sorted[j].view
      {
        views := views + [sorted[i].view];
      }
      CollectedLists(s, p, entries, sorted, views);
    }
  }

  /** sort.SliceStable by latest first: the same pairs, still one for each conversation. */
  method SortFound(entries: seq<Found>) returns (sorted: seq<Found>)
    requires forall i, j :: 0 <= i < j < |entries| ==> FoundId()(entries[i]) != FoundId()(entries[j])
    ensures |sorted| == |entries| && forall f :: f in sorted <==> f in entries
    ensures forall i, j :: 0 <= i < j < |sorted| ==> sorted[i].view.id != sorted[j].view.id
    ensures forall i, j :: 0 <= i < j < |sorted| ==> sorted[i].latestAt >= sorted[j].latestAt
  {
    sorted := SortBy(entries, LatestFirst());
    SortByOrders(entries, LatestFirst());
    SortByKeepsApart(entries, LatestFirst(), FoundId());
    forall f ensures f in sorted <==> f in entries {
      SortByMembers(entries, LatestFirst(), f);
    }
    forall i, j | 0 <= i < j < |sorted|
      ensures sorted[i].view.id != sorted[j].view.id && sorted[i].latestAt >= sorted[j].latestAt
    {
      assert FoundId()(sorted[i]) != FoundId()(sorted[j]) && LatestFirst()(sorted[i]) <= LatestFirst()(sorted[j]);
    }
  }

  lemma FirstThread(threads: seq<ThreadView>, id: ThreadId, i: nat)
    requires i < |threads| && threads[i].id == id
    requires forall j :: 0 <= j < i ==> threads[j].id != id
    ensures FindThread(threads, id) == i
  {
  }

  lemma ApplyKeepsIds(s: State, entry: Entry)
    requires OwnIds(s)
    ensures ApplyEntry(s, entry).Some? ==> OwnIds(ApplyEntry(s, entry).value)
  {
  }

  /** No Apply, failing or not, files a view under another id. */
  lemma {:induction false} OwnIdsKept(s: State, entries: seq<Entry>)
    requires OwnIds(s)
    ensures OwnIds(ApplyEach(s, entries).state) && OwnIds(ApplyEntries(s, entries).state)
    decreases |entries|
  {
    if entries != [] && ApplyEntry(s, entries[0]).Some? {
      ApplyKeepsIds(s, entries[0]);
      OwnIdsKept(ApplyEntry(s, entries[0]).value, entries[1..]);
    }
  }
}
