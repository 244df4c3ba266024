/** What the Postgres tables hold after a log, and what reads of them return, torn or not. */
module PostgresRefinement {
  import opened Collections
  import opened Domain
  import opened ReadModel
  import opened PostgresTables
  import History
  import MemoryProjection
  import MemoryRefinement

  // The rows of a log

  function RowAt(log: seq<Event>, i: nat): ThreadRow
    requires i < |log| && log[i].ThreadStarted?
  {
    var e := log[i];
    ThreadRow(e.conversation, e.thread, i + 1, e.title, Participants(log, e.conversation, e.thread))
  }

  /** A row for each thread started among the first n events, as it stands after the whole log. */
  function ThreadRows(log: seq<Event>, n: nat): (r: seq<ThreadRow>)
    requires n <= |log|
    ensures forall i :: 0 <= i < |r| ==> 1 <= r[i].sequence <= n
  {
    if n == 0 then []
    else ThreadRows(log, n - 1) + (if log[n - 1].ThreadStarted? then [RowAt(log, n - 1)] else [])
  }

  function PostAt(log: seq<Event>, i: nat): MessageRow
    requires i < |log| && log[i].MessagePosted?
  {
    var e := log[i];
    MessageRow(e.conversation, e.thread, i + 1, e.author, e.text, e.at)
  }

  function MessageRows(log: seq<Event>): (r: seq<MessageRow>)
    ensures forall i :: 0 <= i < |r| ==> 1 <= r[i].sequence <= |log|
  {
    if log == [] then []
    else
      var last := |log| - 1;
      MessageRows(log[..last]) + (if log[last].MessagePosted? then [PostAt(log, last)] else [])
  }

  ghost predicate RowMatches(s: Tables, log: seq<Event>, c: ConversationId) {
    && (c in s.conversations <==> Created(log, c))
    && (c in s.conversations ==> s.conversations[c] == Url(log, c))
  }

  ghost predicate TablesMatch(s: Tables, log: seq<Event>) {
    && (forall c :: RowMatches(s, log, c))
    && s.threads == ThreadRows(log, |log|)
    && s.messages == MessageRows(log)
  }

  // One more event

  function StepRow(row: ThreadRow, e: Event): ThreadRow {
    row.(participants := MembershipStep(row.participants, e, row.conversation, row.id))
  }

  function StepRows(rows: seq<ThreadRow>, e: Event): (r: seq<ThreadRow>)
    ensures |r| == |rows|
    ensures forall i :: 0 <= i < |r| ==> r[i] == StepRow(rows[i], e)
  {
    seq(|rows|, i requires 0 <= i < |rows| => StepRow(rows[i], e))
  }

  lemma {:induction false} RowsSnoc(log: seq<Event>, e: Event, n: nat)
    requires n <= |log|
    ensures ThreadRows(log + [e], n) == StepRows(ThreadRows(log, n), e)
  {
    if n > 0 {
      RowsSnoc(log, e, n - 1);
      var d := log[n - 1];
      assert (log + [e])[n - 1] == d;
      if d.ThreadStarted? {
        Snoc(log, e, d.conversation, d.thread);
        assert RowAt(log + [e], n - 1) == StepRow(RowAt(log, n - 1), e);
      }
    }
  }

  lemma PostsSnoc(log: seq<Event>, e: Event)
    ensures MessageRows(log + [e])
         == MessageRows(log) + if e.MessagePosted? then [PostAt(log + [e], |log|)] else []
  {
    assert (log + [e])[..|log|] == log;
  }

  /** Every row comes from the event that started its thread. */
  lemma {:induction false} RowOrigin(log: seq<Event>, n: nat, i: nat)
    requires n <= |log| && i < |ThreadRows(log, n)|
    ensures var row := ThreadRows(log, n)[i];
            1 <= row.sequence <= n && Starts(log[row.sequence - 1], row.conversation, row.id)
  {
    if i < |ThreadRows(log, n - 1)| {
      RowOrigin(log, n - 1, i);
    }
  }

  lemma {:induction false} RowOf(log: seq<Event>, n: nat, i: nat)
    requires i < n <= |log| && log[i].ThreadStarted?
    ensures HasThread(ThreadRows(log, n), log[i].conversation, log[i].thread)
  {
    var rows, before := ThreadRows(log, n), ThreadRows(log, n - 1);
    if i < n - 1 {
      RowOf(log, n - 1, i);
      var k :| 0 <= k < |before| && before[k].conversation == log[i].conversation && before[k].id == log[i].thread;
      assert rows[k] == before[k];
    } else {
      assert rows[|before|] == RowAt(log, i);
    }
  }

  lemma HasThreadIffStarted(log: seq<Event>, c: ConversationId, t: ThreadId)
    ensures HasThread(ThreadRows(log, |log|), c, t) <==> Started(log, c, t)
  {
    var rows := ThreadRows(log, |log|);
    if i :| 0 <= i < |rows| && rows[i].conversation == c && rows[i].id == t {
      RowOrigin(log, |log|, i);
    }
    if Started(log, c, t) {
      var i :| 0 <= i < |log| && Starts(log[i], c, t);
      RowOf(log, |log|, i);
    }
  }

  lemma RowMatchStep(s: Tables, s': Tables, log: seq<Event>, e: Event, c: ConversationId)
    requires RowMatches(s, log, c)
    requires s'.conversations
          == if e.ConversationCreated? then s.conversations[e.conversation := e.url] else s.conversations
    ensures RowMatches(s', log + [e], c)
  {
    MemoryRefinement.CreatedSnoc(log, e, c);
    Snoc(log, e, c, "");
  }

  /** No key or reference is ever violated on a well-formed log. */
  lemma NeverRefused(s: Tables, log: seq<Event>, e: Event)
    requires TablesMatch(s, log) && WellFormed(log + [e])
    ensures ApplyRow(s, Entry(|log| + 1, e)).Some?
    ensures !HasMessage(s.messages, e.conversation, |log| + 1)
    ensures e.ThreadStarted? ==> StepRows(s.threads, e) == s.threads
  {
    WellFormedSnoc(log, e);
    if e.ThreadStarted? {
      var j :| 0 <= j < |log| && Needs(e, log[j]);
      assert Created(log, e.conversation);
      assert RowMatches(s, log, e.conversation);
      forall i | 0 <= i < |s.threads| ensures s.threads[i].id != e.thread {
        RowOrigin(log, |log|, i);
        assert !Clash(log[s.threads[i].sequence - 1], e);
      }
    } else if e.MessagePosted? {
      ChangeTarget(log, e);
      HasThreadIffStarted(log, e.conversation, e.thread);
    }
  }

  lemma RowApplies(s: Tables, log: seq<Event>, e: Event)
    requires TablesMatch(s, log) && WellFormed(log + [e])
    ensures ApplyRow(s, Entry(|log| + 1, e)).Some?
    ensures TablesMatch(ApplyRow(s, Entry(|log| + 1, e)).value, log + [e])
  {
    NeverRefused(s, log, e);
    RowListStep(s, log, e);
    PostListStep(s, log, e);
    assert |log + [e]| == |log| + 1;
    var s' := ApplyRow(s, Entry(|log| + 1, e)).value;
    forall c ensures RowMatches(s', log + [e], c) {
      assert RowMatches(s, log, c);
      RowMatchStep(s, s', log, e, c);
    }
  }

  lemma PostListStep(s: Tables, log: seq<Event>, e: Event)
    requires s.messages == MessageRows(log)
    requires ApplyRow(s, Entry(|log| + 1, e)).Some? && !HasMessage(s.messages, e.conversation, |log| + 1)
    ensures ApplyRow(s, Entry(|log| + 1, e)).value.messages == MessageRows(log + [e])
  {
    PostsSnoc(log, e);
    assert MessageRows(log) + [] == MessageRows(log);
  }

  lemma RowListStep(s: Tables, log: seq<Event>, e: Event)
    requires s.threads == ThreadRows(log, |log|)
    requires ApplyRow(s, Entry(|log| + 1, e)).Some?
    requires e.ThreadStarted? ==> StepRows(s.threads, e) == s.threads
    ensures ApplyRow(s, Entry(|log| + 1, e)).value.threads == ThreadRows(log + [e], |log| + 1)
  {
    ThreadRowsSnoc(log, e);
    if e.ParticipantAdded? || e.ParticipantRemoved? {
      UpdateIsStep(s.threads, e);
    } else if !e.ThreadStarted? {
      StepsNothing(s.threads, e);
    }
  }

  lemma UpdateIsStep(rows: seq<ThreadRow>, e: Event)
    requires e.ParticipantAdded? || e.ParticipantRemoved?
    ensures UpdateRows(rows, e) == StepRows(rows, e)
  {
  }

  lemma StepsNothing(rows: seq<ThreadRow>, e: Event)
    requires e.ConversationCreated? || e.MessagePosted?
    ensures StepRows(rows, e) == rows
  {
  }

  lemma ThreadRowsSnoc(log: seq<Event>, e: Event)
    ensures ThreadRows(log + [e], |log| + 1)
         == StepRows(ThreadRows(log, |log|), e)
            + if e.ThreadStarted? then [ThreadRow(e.conversation, e.thread, |log| + 1, e.title, Members(e))] else []
  {
    RowsSnoc(log, e, |log|);
    if e.ThreadStarted? {
      Snoc(log, e, e.conversation, e.thread);
      assert RowAt(log + [e], |log|) == ThreadRow(e.conversation, e.thread, |log| + 1, e.title, Members(e));
    }
  }

  /** A run that continues a well-formed log commits, and the tables then match the longer log. */
  lemma {:induction false} RowsApply(s: Tables, log: seq<Event>, run: seq<Event>)
    requires TablesMatch(s, log) && WellFormed(log + run)
    ensures ApplyRows(s, EntriesFrom(|log|, run)).Some?
    ensures TablesMatch(ApplyRows(s, EntriesFrom(|log|, run)).value, log + run)
    decreases |run|
  {
    if run == [] {
      assert log + run == log;
    } else {
      var e, rest := run[0], run[1..];
      assert log + [e] + rest == log + run;
      assert WellFormed(log + [e]) by {
        assert (log + run)[..|log| + 1] == log + [e];
        WellFormedPrefix(log + run, |log| + 1);
      }
      RowApplies(s, log, e);
      var s' := ApplyRow(s, Entry(|log| + 1, e)).value;
      RowsApply(s', log + [e], rest);
      ApplyHead(s, s', |log|, run);
    }
  }

  lemma ApplyHead(s: Tables, s': Tables, n: nat, run: seq<Event>)
    requires run != [] && ApplyRow(s, Entry(n + 1, run[0])) == Some(s')
    ensures ApplyRows(s, EntriesFrom(n, run)) == ApplyRows(s', EntriesFrom(n + 1, run[1..]))
  {
    EntriesHead(n, run);
  }

  lemma {:induction false} CheckpointKept(s: Tables, entries: seq<Entry>)
    ensures ApplyRows(s, entries).Some? ==> ApplyRows(s, entries).value.checkpoint == s.checkpoint
    decreases |entries|
  {
    if entries != [] && ApplyRow(s, entries[0]).Some? {
      CheckpointKept(ApplyRow(s, entries[0]).value, entries[1..]);
    }
  }

  lemma BatchApplies(s: Tables, log: seq<Event>, run: seq<Event>)
    requires TablesMatch(s, log) && WellFormed(log + run) && s.checkpoint == |log|
    ensures ApplyBatch(s, EntriesFrom(|log|, run)).Some?
    ensures var s' := ApplyBatch(s, EntriesFrom(|log|, run)).value;
            TablesMatch(s', log + run) && s'.checkpoint == |log| + |run|
  {
    RowsApply(s, log, run);
    CheckpointKept(s, EntriesFrom(|log|, run));
    var s', s'' := ApplyRows(s, EntriesFrom(|log|, run)).value, ApplyBatch(s, EntriesFrom(|log|, run)).value;
    forall c ensures RowMatches(s'', log + run, c) {
      assert RowMatches(s', log + run, c);
    }
  }

  /** The same for the entries after the first n of a log. */
  /** The checkpoint goes to the last entry's sequence unless it is past that already. */
  lemma CheckpointNeverFallsBack(s: Tables, entries: seq<Entry>)
    requires ApplyBatch(s, entries).Some?
    ensures var n := ApplyBatch(s, entries).value.checkpoint;
            && n >= s.checkpoint && (entries == [] ==> n == s.checkpoint)
            && (entries != [] ==>
                  var last := entries[|entries| - 1].sequence; n >= last && (n == last || n == s.checkpoint))
  {
    CheckpointKept(s, entries);
  }

  /** An entry is refused exactly when it starts a thread of an unknown conversation or one that is there,
      or posts a new message to an unknown thread. */
  lemma RefusedRows(s: Tables, entry: Entry)
    ensures var e := entry.event;
            ApplyRow(s, entry) == None
            <==> || (e.ThreadStarted?
                     && (e.conversation !in s.conversations || HasThread(s.threads, e.conversation, e.thread)))
                 || (e.MessagePosted? && !HasThread(s.threads, e.conversation, e.thread)
                     && !HasMessage(s.messages, e.conversation, entry.sequence))
  {
  }

  /** Delivered twice: conversations, messages and removals make no difference, a thread start is refused. */
  lemma Redelivered(s: Tables, entry: Entry)
    requires ApplyRow(s, entry).Some? && !entry.event.ParticipantAdded?
    ensures ApplyRow(ApplyRow(s, entry).value, entry)
         == if entry.event.ThreadStarted? then None else ApplyRow(s, entry)
  {
    var e, s' := entry.event, ApplyRow(s, entry).value;
    if e.ConversationCreated? {
      assert s'.conversations[e.conversation := e.url] == s'.conversations;
    } else if e.ThreadStarted? {
      assert s'.threads[|s.threads|].conversation == e.conversation && s'.threads[|s.threads|].id == e.thread;
    } else if e.MessagePosted? && !HasMessage(s.messages, e.conversation, entry.sequence) {
      assert s'.messages[|s.messages|].conversation == e.conversation;
      assert s'.messages[|s.messages|].sequence == entry.sequence;
    } else if e.ParticipantRemoved? {
      assert UpdateRows(s'.threads, e) == s'.threads;
    }
  }

  lemma NextRunApplies(s: Tables, log: seq<Event>, n: nat, k: nat)
    requires WellFormed(log) && n + k <= |log| && TablesMatch(s, log[..n]) && s.checkpoint == n
    ensures ApplyBatch(s, EntriesFrom(n, log[n..n + k])).Some?
    ensures var s' := ApplyBatch(s, EntriesFrom(n, log[n..n + k])).value;
            TablesMatch(s', log[..n + k]) && s'.checkpoint == n + k
  {
    var before, added, all := log[..n], log[n..n + k], log[..n + k];
    WellFormedPrefix(log, n + k);
    assert before + added == all;
    BatchApplies(s, before, added);
  }

  lemma EmptyTablesMatch()
    ensures TablesMatch(EMPTY_TABLES, [])
  {
  }

  // Reads

  /** The rows are those of the threads started at the given positions. */
  ghost predicate RowsFor(rows: seq<ThreadRow>, log: seq<Event>, starts: seq<nat>) {
    && |rows| == |starts|
    && forall j :: 0 <= j < |rows| ==>
      starts[j] < |log| && log[starts[j]].ThreadStarted? && rows[j] == RowAt(log, starts[j])
  }

  lemma {:induction false} RowsOfConversation(log: seq<Event>, n: nat, c: ConversationId)
    requires n <= |log|
    ensures RowsFor(RowsOf(ThreadRows(log, n), c), log, StartsOf(log[..n], c))
  {
    if n > 0 {
      RowsOfConversation(log, n - 1, c);
      assert log[..n] == log[..n - 1] + [log[n - 1]];
      Snoc(log[..n - 1], log[n - 1], c, "");
      if log[n - 1].ThreadStarted? {
        WhereSnoc(ThreadRows(log, n - 1), RowAt(log, n - 1), RowIn(c));
      } else {
        assert ThreadRows(log, n) == ThreadRows(log, n - 1);
      }
    }
  }

  lemma ListedThreads(s: Tables, log: seq<Event>, c: ConversationId)
    requires TablesMatch(s, log)
    ensures var rows, starts := ListThreads(s, c), StartsOf(log, c);
            |rows| == |starts| && forall j :: 0 <= j < |rows| ==> rows[j] == RowAt(log, starts[j])
  {
    RowsOfConversation(log, |log|, c);
    assert log[..|log|] == log;
    SortedStaysPut(RowsOf(s.threads, c), RowSequence());
  }

  lemma PostsOfSnoc(rows: seq<MessageRow>, row: MessageRow, c: ConversationId, t: ThreadId)
    ensures PostsOf(rows + [row], c) == PostsOf(rows, c) + if row.conversation == c then [row] else []
    ensures ForThread(rows + [row], t)
         == ForThread(rows, t) + if row.thread == t then [MessageView(row.author, row.text, row.postedAt)] else []
  {
    assert (rows + [row])[..|rows|] == rows;
  }

  lemma OnePost(rows: seq<MessageRow>, post: MessageRow, c: ConversationId, t: ThreadId)
    ensures ForThread(PostsOf(rows + [post], c), t)
         == ForThread(PostsOf(rows, c), t)
            + if post.conversation == c && post.thread == t
              then [MessageView(post.author, post.text, post.postedAt)] else []
  {
    PostsOfSnoc(rows, post, c, t);
    if post.conversation == c {
      PostsOfSnoc(PostsOf(rows, c), post, c, t);
    } else {
      assert PostsOf(rows, c) + [] == PostsOf(rows, c);
    }
  }

  lemma {:induction false} PostsInOrder(log: seq<Event>)
    ensures SortedBy(MessageRows(log), PostSequence())
  {
    if log != [] {
      PostsInOrder(log[..|log| - 1]);
    }
  }

  lemma {:induction false} PostsByThread(log: seq<Event>, c: ConversationId, t: ThreadId)
    ensures ForThread(PostsOf(MessageRows(log), c), t) == Messages(log, c, t)
  {
    if log != [] {
      var init, e := log[..|log| - 1], log[|log| - 1];
      assert log == init + [e];
      PostsByThread(init, c, t);
      PostsByThreadStep(init, e, c, t);
    }
  }

  lemma PostsByThreadStep(log: seq<Event>, e: Event, c: ConversationId, t: ThreadId)
    requires ForThread(PostsOf(MessageRows(log), c), t) == Messages(log, c, t)
    ensures ForThread(PostsOf(MessageRows(log + [e]), c), t) == Messages(log + [e], c, t)
  {
    Snoc(log, e, c, t);
    PostsSnoc(log, e);
    if e.MessagePosted? {
      OnePost(MessageRows(log), PostAt(log + [e], |log|), c, t);
    } else {
      assert MessageRows(log) + [] == MessageRows(log);
    }
  }

  lemma ListedMessages(s: Tables, log: seq<Event>, c: ConversationId, t: ThreadId)
    requires TablesMatch(s, log)
    ensures ForThread(ListMessages(s, c), t) == Messages(log, c, t)
  {
    PostsInOrder(log);
    WhereSorted(s.messages, PostIn(c), PostSequence());
    SortedStaysPut(PostsOf(s.messages, c), PostSequence());
    PostsByThread(log, c, t);
  }

  /** Get when its three reads see the tables after three different prefixes of the log. */
  lemma TornGet(log: seq<Event>, c: ConversationId, u: nat, k: nat, m: nat, su: Tables, sk: Tables, sm: Tables)
    requires WellFormed(log) && u <= |log| && k <= |log| && m <= |log|
    requires TablesMatch(su, log[..u]) && TablesMatch(sk, log[..k]) && TablesMatch(sm, log[..m])
    ensures Assemble(c, ConversationRow(su, c), ListThreads(sk, c), ListMessages(sm, c))
         == if StartsOf(log[..k], c) == [] || !Created(log[..u], c) then Failure(ConversationNotFound)
            else Success(History.TornView(log, c, u, k, m))
  {
    var rows, posts := ListThreads(sk, c), ListMessages(sm, c);
    ListedThreads(sk, log[..k], c);
    assert RowMatches(su, log[..u], c);
    var threads, torn := ThreadsFrom(rows, posts), History.TornView(log, c, u, k, m).threads;
    forall j | 0 <= j < |rows| ensures threads[j] == torn[j] {
      ListedMessages(sm, log[..m], c, rows[j].id);
    }
    assert threads == torn;
  }

  lemma WholeGet(s: Tables, log: seq<Event>, c: ConversationId)
    requires WellFormed(log) && TablesMatch(s, log)
    ensures Assemble(c, ConversationRow(s, c), ListThreads(s, c), ListMessages(s, c))
         == if StartsOf(log, c) == [] then Failure(ConversationNotFound) else Success(View(log, c))
  {
    var n := |log|;
    assert log[..n] == log;
    TornGet(log, c, n, n, n, s, s, s);
    History.TornViewWhole(log, c, n);
    if StartsOf(log, c) != [] {
      MemoryRefinement.StartedInView(log, c);
    }
  }

  lemma ExistsMatches(s: Tables, log: seq<Event>, c: ConversationId)
    requires TablesMatch(s, log)
    ensures ExistsRow(s, c) <==> StartsOf(log, c) != []
  {
    if i :| 0 <= i < |s.threads| && s.threads[i].conversation == c {
      RowOrigin(log, |log|, i);
      StartsFound(log, c, s.threads[i].sequence - 1);
    }
    if StartsOf(log, c) != [] {
      var start := StartsOf(log, c)[0];
      RowOf(log, |log|, start);
      var k :| 0 <= k < |s.threads| && s.threads[k].conversation == c && s.threads[k].id == log[start].thread;
    }
  }

  // The two stores

  /** Both projections fed the same runs, one Apply call a run. */
  function Concat(runs: seq<seq<Event>>): seq<Event> {
    if runs == [] then [] else Concat(runs[..|runs| - 1]) + runs[|runs| - 1]
  }

  function MemoryAfter(runs: seq<seq<Event>>): MemoryProjection.Outcome {
    if runs == [] then MemoryProjection.Outcome(MemoryProjection.EMPTY, true)
    else
      var init := runs[..|runs| - 1];
      var before := MemoryAfter(init);
      if !before.ok then before
      else MemoryProjection.ApplyEntries(before.state, EntriesFrom(|Concat(init)|, runs[|runs| - 1]))
  }

  function TablesAfter(runs: seq<seq<Event>>): Option<Tables> {
    if runs == [] then Some(EMPTY_TABLES)
    else
      var init := runs[..|runs| - 1];
      match TablesAfter(init)
      case None => None
      case Some(before) => ApplyBatch(before, EntriesFrom(|Concat(init)|, runs[|runs| - 1]))
  }

  lemma {:induction false} BothFollow(runs: seq<seq<Event>>)
    requires WellFormed(Concat(runs))
    ensures var log := Concat(runs);
            && MemoryAfter(runs).ok && MemoryRefinement.Matches(MemoryAfter(runs).state, log)
            && MemoryAfter(runs).state.checkpoint == |log|
            && TablesAfter(runs).Some? && TablesMatch(TablesAfter(runs).value, log)
            && TablesAfter(runs).value.checkpoint == |log|
  {
    if runs == [] {
      MemoryRefinement.EmptyMatches();
    } else {
      var init, run := runs[..|runs| - 1], runs[|runs| - 1];
      assert Concat(runs)[..|Concat(init)|] == Concat(init);
      WellFormedPrefix(Concat(runs), |Concat(init)|);
      BothFollow(init);
      BatchApplies(TablesAfter(init).value, Concat(init), run);
      MemoryRefinement.RunFollows(MemoryAfter(init).state, Concat(init), run);
    }
  }

  /** The two stores agree: after any well-formed log under any split into Apply calls, every Get,
      Exists and Checkpoint answers the same, and the answer is the read model's. */
  lemma StoresAgree(runs: seq<seq<Event>>, c: ConversationId)
    requires WellFormed(Concat(runs))
    ensures MemoryAfter(runs).ok && TablesAfter(runs).Some?
    ensures var memory, tables := MemoryAfter(runs).state, TablesAfter(runs).value;
            && MemoryProjection.Get(memory, c)
            == Assemble(c, ConversationRow(tables, c), ListThreads(tables, c), ListMessages(tables, c))
            && MemoryProjection.Exists(memory, c) == ExistsRow(tables, c)
            && memory.checkpoint == tables.checkpoint == |Concat(runs)|
            && (MemoryProjection.Get(memory, c).Success? ==>
                  MemoryProjection.Get(memory, c).value == View(Concat(runs), c))
  {
    BothFollow(runs);
    MemoryRefinement.MatchingReads(MemoryAfter(runs).state, Concat(runs), c);
    WholeGet(TablesAfter(runs).value, Concat(runs), c);
    ExistsMatches(TablesAfter(runs).value, Concat(runs), c);
  }
}
