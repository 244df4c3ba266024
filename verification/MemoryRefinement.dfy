/** What the in-memory projection holds after a log, and how its answers depend on the order and
    the company in which entries reach it. */
module MemoryRefinement {
  import opened Collections
  import opened Domain
  import opened ReadModel
  import opened MemoryProjection

  ghost predicate HasSequence(s: State, e: Event, sequence: Sequence)
    requires e.ThreadStarted?
  {
    && e.conversation in s.threadSequences
    && e.thread in s.threadSequences[e.conversation]
    && s.threadSequences[e.conversation][e.thread] == sequence
  }

  ghost predicate SequencesMatch(s: State, log: seq<Event>) {
    forall i :: 0 <= i < |log| && log[i].ThreadStarted? ==> HasSequence(s, log[i], i + 1)
  }

  ghost predicate ConversationMatches(s: State, log: seq<Event>, c: ConversationId) {
    && (c in s.conversations <==> Created(log, c))
    && (c in s.conversations ==> s.conversations[c] == View(log, c))
  }

  /** The state says about every conversation what the log says about it. */
  ghost predicate Matches(s: State, log: seq<Event>) {
    && (forall c :: ConversationMatches(s, log, c))
    && (forall t :: LatestOf(s, t) == Latest(log, t))
    && SequencesMatch(s, log)
  }

  lemma CreatedSnoc(log: seq<Event>, e: Event, c: ConversationId)
    ensures Created(log + [e], c) <==> Created(log, c) || (e.ConversationCreated? && e.conversation == c)
  {
    var all := log + [e];
    if Created(log, c) {
      var i :| 0 <= i < |log| && log[i].ConversationCreated? && log[i].conversation == c;
      assert all[i] == log[i];
    }
    assert all[|log|] == e;
  }

  lemma NothingBeforeCreation(log: seq<Event>, c: ConversationId)
    requires WellFormed(log) && !Created(log, c)
    ensures StartsOf(log, c) == [] && Threads(log, c) == []
  {
    if StartsOf(log, c) != [] {
      StartedInView(log, c);
      assert false;
    }
  }

  lemma StartedInView(log: seq<Event>, c: ConversationId)
    requires WellFormed(log) && StartsOf(log, c) != []
    ensures Created(log, c)
  {
    var i := StartsOf(log, c)[0];
    assert Starts(log[i], c, log[i].thread);
    StartedIsCreated(log, c, log[i].thread);
  }

  lemma ThreadsAreSorted(s: State, log: seq<Event>, c: ConversationId)
    requires SequencesMatch(s, log) && c in s.threadSequences
    ensures StrictlySortedBy(Threads(log, c), SequenceKey(s.threadSequences[c]))
  {
    var starts, key := StartsOf(log, c), SequenceKey(s.threadSequences[c]);
    forall j | 0 <= j < |starts| ensures key(Threads(log, c)[j]) == starts[j] + 1 {
      assert HasSequence(s, log[starts[j]], starts[j] + 1);
    }
  }

  /** A conversation the event is not about. */
  lemma OtherConversation(s: State, s': State, log: seq<Event>, e: Event, c: ConversationId)
    requires ConversationMatches(s, log, c) && c != e.conversation
    requires c in s'.conversations <==> c in s.conversations
    requires c in s.conversations ==> s'.conversations[c] == s.conversations[c]
    ensures ConversationMatches(s', log + [e], c)
  {
    CreatedSnoc(log, e, c);
    ElsewhereSnoc(log, e, c);
    Snoc(log, e, c, "");
  }

  lemma LatestStep(s: State, s': State, log: seq<Event>, e: Event)
    requires forall t :: LatestOf(s, t) == Latest(log, t)
    requires ApplyEntry(s, Entry(|log| + 1, e)) == Some(s')
    ensures forall t :: LatestOf(s', t) == Latest(log + [e], t)
  {
    forall t ensures LatestOf(s', t) == Latest(log + [e], t) {
      LatestSnoc(log, e, t);
      LatestApplied(s, s', Entry(|log| + 1, e), t);
    }
  }

  lemma LatestApplied(s: State, s': State, entry: Entry, t: ThreadId)
    requires ApplyEntry(s, entry) == Some(s')
    ensures var e := entry.event;
            LatestOf(s', t)
            == if e.MessagePosted? && e.thread == t && e.at > LatestOf(s, t) then e.at else LatestOf(s, t)
  {
  }

  lemma SequencesStep(s: State, s': State, log: seq<Event>, e: Event)
    requires SequencesMatch(s, log) && Admissible(log, e)
    requires ApplyEntry(s, Entry(|log| + 1, e)) == Some(s')
    ensures SequencesMatch(s', log + [e])
  {
    forall i | 0 <= i < |log + [e]| && (log + [e])[i].ThreadStarted?
      ensures HasSequence(s', (log + [e])[i], i + 1)
    {
      if i < |log| {
        assert HasSequence(s, log[i], i + 1);
        assert !Clash(log[i], e);
      }
    }
  }

  lemma CreationStep(s: State, log: seq<Event>, e: Event)
    requires ConversationMatches(s, log, e.conversation) && WellFormed(log + [e]) && e.ConversationCreated?
    ensures ApplyEntry(s, Entry(|log| + 1, e)).Some?
    ensures ConversationMatches(ApplyEntry(s, Entry(|log| + 1, e)).value, log + [e], e.conversation)
  {
    var c := e.conversation;
    WellFormedSnoc(log, e);
    NothingBeforeCreation(log, c);
    CreatedSnoc(log, e, c);
    ElsewhereSnoc(log, e, c);
    Snoc(log, e, c, "");
  }

  lemma StartStep(s: State, s': State, log: seq<Event>, e: Event)
    requires ConversationMatches(s, log, e.conversation) && WellFormed(log + [e]) && e.ThreadStarted?
    requires ApplyEntry(s, Entry(|log| + 1, e)) == Some(s') && SequencesMatch(s', log + [e])
    ensures ConversationMatches(s', log + [e], e.conversation)
  {
    var all, c := log + [e], e.conversation;
    StartSnoc(log, e);
    assert HasSequence(s', all[|log|], |log| + 1);
    ThreadsAreSorted(s', all, c);
    SortedStaysPut(Threads(all, c), SequenceKey(s'.threadSequences[c]));
    CreatedSnoc(log, e, c);
    Snoc(log, e, c, "");
  }

  lemma ChangeStep(s: State, s': State, log: seq<Event>, e: Event)
    requires ConversationMatches(s, log, e.conversation) && WellFormed(log + [e])
    requires !e.ConversationCreated? && !e.ThreadStarted?
    requires ApplyEntry(s, Entry(|log| + 1, e)) == Some(s')
    ensures ConversationMatches(s', log + [e], e.conversation)
  {
    var c := e.conversation;
    ChangeTarget(log, e);
    ChangeSnoc(log, e);
    var thread := Threads(log, c)[FindThread(Threads(log, c), e.thread)];
    assert thread.messages + [] == thread.messages;
    CreatedSnoc(log, e, c);
    Snoc(log, e, c, "");
  }

  /** The source's error branches are out of reach when the log with the entry is well formed. */
  lemma NeverFails(s: State, log: seq<Event>, e: Event, sequence: Sequence)
    requires ConversationMatches(s, log, e.conversation) && WellFormed(log + [e])
    ensures ApplyEntry(s, Entry(sequence, e)).Some?
  {
    WellFormedSnoc(log, e);
    if e.ThreadStarted? {
      var j :| 0 <= j < |log| && Needs(e, log[j]);
      assert Created(log, e.conversation);
    } else if !e.ConversationCreated? {
      ChangeTarget(log, e);
      StartedIsCreated(log, e.conversation, e.thread);
      ThreadFound(log, e.conversation, e.thread);
    }
  }

  lemma EntryApplies(s: State, log: seq<Event>, e: Event)
    requires Matches(s, log) && WellFormed(log + [e])
    ensures ApplyEntry(s, Entry(|log| + 1, e)).Some?
    ensures Matches(ApplyEntry(s, Entry(|log| + 1, e)).value, log + [e])
  {
    assert ConversationMatches(s, log, e.conversation);
    NeverFails(s, log, e, |log| + 1);
    AppliedMatches(s, ApplyEntry(s, Entry(|log| + 1, e)).value, log, e);
  }

  lemma AppliedMatches(s: State, s': State, log: seq<Event>, e: Event)
    requires Matches(s, log) && WellFormed(log + [e]) && ApplyEntry(s, Entry(|log| + 1, e)) == Some(s')
    ensures Matches(s', log + [e])
  {
    WellFormedSnoc(log, e);
    SequencesStep(s, s', log, e);
    LatestStep(s, s', log, e);
    ConversationsStep(s, s', log, e);
  }

  lemma ConversationsStep(s: State, s': State, log: seq<Event>, e: Event)
    requires WellFormed(log + [e]) && forall c :: ConversationMatches(s, log, c)
    requires ApplyEntry(s, Entry(|log| + 1, e)) == Some(s') && SequencesMatch(s', log + [e])
    ensures forall c :: ConversationMatches(s', log + [e], c)
  {
    forall c ensures ConversationMatches(s', log + [e], c) {
      assert ConversationMatches(s, log, c);
      ConversationStep(s, s', log, e, c);
    }
  }

  lemma ConversationStep(s: State, s': State, log: seq<Event>, e: Event, c: ConversationId)
    requires ConversationMatches(s, log, c) && WellFormed(log + [e])
    requires ApplyEntry(s, Entry(|log| + 1, e)) == Some(s') && SequencesMatch(s', log + [e])
    ensures ConversationMatches(s', log + [e], c)
  {
    if c != e.conversation {
      OtherConversation(s, s', log, e, c);
    } else if e.ConversationCreated? {
      CreationStep(s, log, e);
    } else if e.ThreadStarted? {
      StartStep(s, s', log, e);
    } else {
      ChangeStep(s, s', log, e);
    }
  }

  /** A run of entries that continues a well-formed log is applied without error, and the state then
      matches the longer log. */
  lemma {:induction false} RunApplies(s: State, log: seq<Event>, run: seq<Event>)
    requires Matches(s, log) && WellFormed(log + run)
    ensures var r := ApplyEach(s, EntriesFrom(|log|, run)); r.ok && Matches(r.state, log + run)
    decreases |run|
  {
    if run == [] {
      assert log + run == log;
    } else {
      var e, rest := run[0], run[1..];
      assert log + [e] + rest == log + run;
      assert WellFormed(log + [e]) by {
        assert (log + run)[..|log| + 1] == log + [e];
        WellFormedPrefix(log + run, |log| + 1);
      }
      EntryApplies(s, log, e);
      var s' := ApplyEntry(s, Entry(|log| + 1, e)).value;
      RunApplies(s', log + [e], rest);
      ApplyHead(s, s', |log|, run);
    }
  }

  lemma ApplyHead(s: State, s': State, n: nat, run: seq<Event>)
    requires run != [] && ApplyEntry(s, Entry(n + 1, run[0])) == Some(s')
    ensures ApplyEach(s, EntriesFrom(n, run)) == ApplyEach(s', EntriesFrom(n + 1, run[1..]))
  {
    EntriesHead(n, run);
  }

  lemma RunFollows(s: State, log: seq<Event>, run: seq<Event>)
    requires Matches(s, log) && WellFormed(log + run) && s.checkpoint == |log|
    ensures var r := ApplyEntries(s, EntriesFrom(|log|, run));
            r.ok && Matches(r.state, log + run) && r.state.checkpoint == |log| + |run|
  {
    RunApplies(s, log, run);
    var each, all := ApplyEach(s, EntriesFrom(|log|, run)).state, ApplyEntries(s, EntriesFrom(|log|, run)).state;
    CheckpointKept(s, EntriesFrom(|log|, run));
    forall c ensures ConversationMatches(all, log + run, c) {
      assert ConversationMatches(each, log + run, c);
    }
    forall t ensures LatestOf(all, t) == Latest(log + run, t) {
      assert LatestOf(each, t) == Latest(log + run, t);
    }
    forall i | 0 <= i < |log + run| && (log + run)[i].ThreadStarted? ensures HasSequence(all, (log + run)[i], i + 1) {
      assert HasSequence(each, (log + run)[i], i + 1);
    }
  }

  lemma {:induction false} CheckpointKept(s: State, entries: seq<Entry>)
    ensures ApplyEach(s, entries).state.checkpoint == s.checkpoint
    decreases |entries|
  {
    if entries != [] && ApplyEntry(s, entries[0]).Some? {
      CheckpointKept(ApplyEntry(s, entries[0]).value, entries[1..]);
    }
  }

  lemma EmptyMatches()
    ensures Matches(EMPTY, [])
  {
  }

  /** What a reader of a matching projection gets. */
  lemma MatchingReads(s: State, log: seq<Event>, c: ConversationId)
    requires Matches(s, log) && WellFormed(log)
    ensures Exists(s, c) <==> StartsOf(log, c) != []
    ensures Get(s, c) == if StartsOf(log, c) == [] then Failure(ConversationNotFound) else Success(View(log, c))
  {
    assert ConversationMatches(s, log, c);
    if StartsOf(log, c) != [] {
      StartedInView(log, c);
    }
  }
}
