/** The projection tables of the Postgres store. A table is the list of its rows in heap order; a
    query filters it and orders the result by sequence. Each statement's keys and references are
    checked as the schema declares them. */
module PostgresTables {
  import opened Collections
  import opened Domain

  datatype ThreadRow = ThreadRow(
    conversation: ConversationId, id: ThreadId, sequence: Sequence, title: string,
    participants: seq<ParticipantId>)
  datatype MessageRow = MessageRow(
    conversation: ConversationId, thread: ThreadId, sequence: Sequence,
    author: ParticipantId, text: string, postedAt: Time)

  datatype Tables = Tables(
    conversations: map<ConversationId, string>,
    threads: seq<ThreadRow>,
    messages: seq<MessageRow>,
    checkpoint: Sequence)

  /** The committed tables that each of a view's three reads sees. */
  datatype Moments = Moments(row: Tables, threads: Tables, messages: Tables)

  const EMPTY_TABLES := Tables(map[], [], [], 0)

  // Statements

  predicate HasThread(rows: seq<ThreadRow>, c: ConversationId, t: ThreadId) {
    exists i :: 0 <= i < |rows| && rows[i].conversation == c && rows[i].id == t
  }

  predicate HasMessage(rows: seq<MessageRow>, c: ConversationId, sequence: Sequence) {
    exists i :: 0 <= i < |rows| && rows[i].conversation == c && rows[i].sequence == sequence
  }

  /** array_append or array_remove on the matching row. */
  function UpdateRow(row: ThreadRow, e: Event): ThreadRow
    requires e.ParticipantAdded? || e.ParticipantRemoved?
  {
    if row.conversation != e.conversation || row.id != e.thread then row
    else row.(participants :=
      if e.ParticipantAdded? then row.participants + [e.participant] else Without(row.participants, e.participant))
  }

  function UpdateRows(rows: seq<ThreadRow>, e: Event): seq<ThreadRow>
    requires e.ParticipantAdded? || e.ParticipantRemoved?
  {
    seq(|rows|, i requires 0 <= i < |rows| => UpdateRow(rows[i], e))
  }

  /** One entry's statement; None when it violates a key or a reference. An UPDATE that matches no
      row is no error, and a message row whose key is taken is skipped. */
  function ApplyRow(s: Tables, entry: Entry): Option<Tables> {
    match entry.event
    case ConversationCreated(c, _, url, _) => Some(s.(conversations := s.conversations[c := url]))
    case ThreadStarted(c, t, title, _, _, _) =>
      if c !in s.conversations || HasThread(s.threads, c, t) then None
      else Some(s.(threads := s.threads + [ThreadRow(c, t, entry.sequence, title, Members(entry.event))]))
    case MessagePosted(c, t, _, author, text, at) =>
      if HasMessage(s.messages, c, entry.sequence) then Some(s)
      else if !HasThread(s.threads, c, t) then None
      else Some(s.(messages := s.messages + [MessageRow(c, t, entry.sequence, author, text, at)]))
    case _ => Some(s.(threads := UpdateRows(s.threads, entry.event)))
  }

  function ApplyRows(s: Tables, entries: seq<Entry>): Option<Tables>
    decreases |entries|
  {
    if entries == [] then Some(s)
    else
      match ApplyRow(s, entries[0])
      case None => None
      case Some(s') => ApplyRows(s', entries[1..])
  }

  function SetCheckpoint(s: Tables, entries: seq<Entry>): Tables {
    if entries != [] && s.checkpoint < entries[|entries| - 1].sequence
    then s.(checkpoint := entries[|entries| - 1].sequence)
    else s
  }

  /** The whole batch and the checkpoint in one transaction; None when it is rolled back. */
  function ApplyBatch(s: Tables, entries: seq<Entry>): Option<Tables> {
    match ApplyRows(s, entries)
    case None => None
    case Some(s') => Some(SetCheckpoint(s', entries))
  }

  // Queries

  function RowIn(c: ConversationId): ThreadRow -> bool { (row: ThreadRow) => row.conversation == c }
  function PostIn(c: ConversationId): MessageRow -> bool { (row: MessageRow) => row.conversation == c }

  function RowsOf(rows: seq<ThreadRow>, c: ConversationId): seq<ThreadRow> {
    Where(rows, RowIn(c))
  }

  function PostsOf(rows: seq<MessageRow>, c: ConversationId): seq<MessageRow> {
    Where(rows, PostIn(c))
  }

  function RowSequence(): ThreadRow -> int { (row: ThreadRow) => row.sequence }
  function PostSequence(): MessageRow -> int { (row: MessageRow) => row.sequence }

  function ConversationRow(s: Tables, c: ConversationId): Option<string> {
    if c in s.conversations then Some(s.conversations[c]) else None
  }

  function ListThreads(s: Tables, c: ConversationId): seq<ThreadRow> {
    SortBy(RowsOf(s.threads, c), RowSequence())
  }

  function ListMessages(s: Tables, c: ConversationId): seq<MessageRow> {
    SortBy(PostsOf(s.messages, c), PostSequence())
  }

  predicate ExistsRow(s: Tables, c: ConversationId) {
    exists i :: 0 <= i < |s.threads| && s.threads[i].conversation == c
  }

  /** The messages a list of rows has for one thread. */
  function ForThread(rows: seq<MessageRow>, t: ThreadId): seq<MessageView> {
    if rows == [] then []
    else
      var last := rows[|rows| - 1];
      ForThread(rows[..|rows| - 1], t)
      + (if last.thread == t then [MessageView(last.author, last.text, last.postedAt)] else [])
  }

  function ThreadFrom(row: ThreadRow, posts: seq<MessageRow>): ThreadView {
    ThreadView(row.id, row.title, row.participants, ForThread(posts, row.id))
  }

  function ThreadsFrom(rows: seq<ThreadRow>, posts: seq<MessageRow>): (r: seq<ThreadView>)
    ensures |r| == |rows|
    ensures forall i :: 0 <= i < |r| ==> r[i] == ThreadFrom(rows[i], posts)
  {
    seq(|rows|, i requires 0 <= i < |rows| => ThreadFrom(rows[i], posts))
  }

  /** Get, from what its three independent reads returned. */
  function Assemble(c: ConversationId, row: Option<string>, rows: seq<ThreadRow>, posts: seq<MessageRow>)
    : Result<ConversationView, Error>
  {
    if rows == [] || row.None? then Failure(ConversationNotFound)
    else Success(ConversationView(c, row.value, ThreadsFrom(rows, posts)))
  }

  method GroupByThread(posts: seq<MessageRow>) returns (byThread: map<ThreadId, seq<MessageView>>)
    ensures forall t :: ForThread(posts, t) == if t in byThread then byThread[t] else []
  {
    byThread := map[];
    for i := 0 to |posts|
      invariant forall t :: ForThread(posts[..i], t) == if t in byThread then byThread[t] else []
    {
      assert posts[..i + 1][..i] == posts[..i];
      var post := posts[i];
      var earlier := if post.thread in byThread then byThread[post.thread] else [];
      byThread := byThread[post.thread := earlier + [MessageView(post.author, post.text, post.postedAt)]];
    }
    assert posts[..|posts|] == posts;
  }

  /** Get's regrouping loops, shared with the per-participant query. */
  method AssembleThreads(rows: seq<ThreadRow>, posts: seq<MessageRow>) returns (threads: seq<ThreadView>)
    ensures threads == ThreadsFrom(rows, posts)
  {
    var byThread := GroupByThread(posts);
    threads := [];
    for i := 0 to |rows|
      invariant threads == ThreadsFrom(rows, posts)[..i]
    {
      var row := rows[i];
      var messages := if row.id in byThread then byThread[row.id] else [];
      threads := threads + [ThreadView(row.id, row.title, row.participants, messages)];
    }
  }

  ghost predicate DistinctSequences(rows: seq<ThreadRow>) {
    forall i, j :: 0 <= i < j < |rows| ==> rows[i].sequence != rows[j].sequence
  }

  /** ORDER BY sequence makes the heap order of a conversation's thread rows irrelevant. */
  lemma HeapOrderIrrelevant(rows: seq<ThreadRow>, rows': seq<ThreadRow>, c: ConversationId)
    requires forall r :: r in RowsOf(rows, c) <==> r in RowsOf(rows', c)
    requires DistinctSequences(RowsOf(rows, c)) && DistinctSequences(RowsOf(rows', c))
    ensures SortBy(RowsOf(rows, c), RowSequence()) == SortBy(RowsOf(rows', c), RowSequence())
  {
    SortByStrict(RowsOf(rows, c), RowSequence());
    SortByStrict(RowsOf(rows', c), RowSequence());
    forall r ensures r in SortBy(RowsOf(rows, c), RowSequence()) <==> r in SortBy(RowsOf(rows', c), RowSequence()) {
      SortByMembers(RowsOf(rows, c), RowSequence(), r);
      SortByMembers(RowsOf(rows', c), RowSequence(), r);
    }
    SortedUnique(SortBy(RowsOf(rows, c), RowSequence()), SortBy(RowsOf(rows', c), RowSequence()), RowSequence());
  }
}
