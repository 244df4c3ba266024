/** Two laws of the in-memory projection that hold of every state, well-formed log or not:
    conversations do not disturb each other, and threads end up in start order however they arrive. */
module MemoryLaws {
  import opened Collections
  import opened Domain
  import opened MemoryProjection

  // Conversations are independent

  /** The entries about c, in order: what listing one conversation's events returns. */
  function About(entries: seq<Entry>, c: ConversationId): seq<Entry> {
    if entries == [] then []
    else (if entries[0].event.conversation == c then [entries[0]] else []) + About(entries[1..], c)
  }

  /** An entry is refused exactly when its conversation is unknown, or it is about a thread the view lacks. */
  lemma RefusedEntries(s: State, entry: Entry)
    ensures var e := entry.event;
            ApplyEntry(s, entry) == None
            <==> !e.ConversationCreated? && (e.conversation in s.conversations ==>
                   !e.ThreadStarted? && forall i :: 0 <= i < |s.conversations[e.conversation].threads| ==>
                     s.conversations[e.conversation].threads[i].id != e.thread)
  {
  }

  ghost predicate SameAt(s: State, s': State, c: ConversationId) {
    && (c in s.conversations <==> c in s'.conversations)
    && (c in s.conversations ==> s.conversations[c] == s'.conversations[c])
    && (c in s.threadSequences <==> c in s'.threadSequences)
    && (c in s.threadSequences ==> s.threadSequences[c] == s'.threadSequences[c])
  }

  lemma EntryElsewhere(s: State, entry: Entry, c: ConversationId)
    requires ApplyEntry(s, entry).Some? && entry.event.conversation != c
    ensures SameAt(ApplyEntry(s, entry).value, s, c)
  {
  }

  lemma EntryHere(s: State, s': State, entry: Entry)
    requires SameAt(s, s', entry.event.conversation) && ApplyEntry(s, entry).Some?
    ensures ApplyEntry(s', entry).Some?
    ensures SameAt(ApplyEntry(s, entry).value, ApplyEntry(s', entry).value, entry.event.conversation)
  {
  }

  lemma {:induction false} ConversationsIndependent(s: State, s': State, entries: seq<Entry>, c: ConversationId)
    requires SameAt(s, s', c) && ApplyEach(s, entries).ok
    ensures ApplyEach(s', About(entries, c)).ok
    ensures SameAt(ApplyEach(s, entries).state, ApplyEach(s', About(entries, c)).state, c)
    decreases |entries|
  {
    if entries != [] {
      var entry := entries[0];
      var t := ApplyEntry(s, entry).value;
      if entry.event.conversation == c {
        EntryHere(s, s', entry);
        assert About(entries, c)[0] == entry && About(entries, c)[1..] == About(entries[1..], c);
        ConversationsIndependent(t, ApplyEntry(s', entry).value, entries[1..], c);
      } else {
        EntryElsewhere(s, entry, c);
        assert About(entries, c) == About(entries[1..], c);
        ConversationsIndependent(t, s', entries[1..], c);
      }
    }
  }

  /** A conversation reads the same whether the projection saw every event or only its own. */
  lemma ViewFromOwnEvents(entries: seq<Entry>, c: ConversationId)
    requires ApplyEntries(EMPTY, entries).ok
    ensures ApplyEntries(EMPTY, About(entries, c)).ok
    ensures Get(ApplyEntries(EMPTY, entries).state, c) == Get(ApplyEntries(EMPTY, About(entries, c)).state, c)
    ensures Exists(ApplyEntries(EMPTY, entries).state, c)
         == Exists(ApplyEntries(EMPTY, About(entries, c)).state, c)
  {
    ConversationsIndependent(EMPTY, EMPTY, entries, c);
  }

  // Thread order

  /** Starts of threads of c with distinct thread ids and distinct sequences. */
  ghost predicate DistinctStarts(entries: seq<Entry>, c: ConversationId) {
    && (forall i :: 0 <= i < |entries| ==> entries[i].event.ThreadStarted? && entries[i].event.conversation == c)
    && (forall i, j :: 0 <= i < j < |entries| ==>
          entries[i].event.thread != entries[j].event.thread && entries[i].sequence != entries[j].sequence)
  }

  function NewThreadView(e: Event): ThreadView
    requires e.ThreadStarted?
  {
    ThreadView(e.thread, e.title, Members(e), [])
  }

  function SequencesOf(s: State, c: ConversationId): map<ThreadId, Sequence> {
    if c in s.threadSequences then s.threadSequences[c] else map[]
  }

  /** c's threads are those the entries start, once each, in the order of their sequences. */
  ghost predicate InStartOrder(s: State, entries: seq<Entry>, c: ConversationId)
    requires DistinctStarts(entries, c)
  {
    && c in s.conversations
    && var threads, sequences := s.conversations[c].threads, SequencesOf(s, c);
    && (forall i :: 0 <= i < |entries| ==>
          && entries[i].event.thread in sequences
          && sequences[entries[i].event.thread] == entries[i].sequence)
    && (forall x :: x in threads <==> exists i :: 0 <= i < |entries| && x == NewThreadView(entries[i].event))
    && StrictlySortedBy(threads, SequenceKey(sequences))
  }

  lemma OneMoreStart(s: State, entries: seq<Entry>, entry: Entry, c: ConversationId)
    requires DistinctStarts(entries + [entry], c) && DistinctStarts(entries, c)
    requires InStartOrder(s, entries, c)
    ensures ApplyEntry(s, entry).Some?
    ensures InStartOrder(ApplyEntry(s, entry).value, entries + [entry], c)
  {
    var all := entries + [entry];
    assert all[|entries|] == entry;
    var s' := ApplyEntry(s, entry).value;
    var threads, added := s.conversations[c].threads, NewThreadView(entry.event);
    var key' := SequenceKey(SequencesOf(s', c));
    KeysKept(s, s', entries, entry, c);
    assert s'.conversations[c].threads == InsertBy(threads, added, key') by {
      assert (threads + [added])[..|threads|] == threads;
      SortedStaysPut(threads, key');
    }
    InsertByStrict(threads, added, key');
    forall x ensures x in s'.conversations[c].threads
                <==> exists i :: 0 <= i < |all| && x == NewThreadView(all[i].event) {
      InsertByMembers(threads, added, key', x);
      Extended(entries, entry, c, x);
    }
    forall i | 0 <= i < |all|
      ensures && all[i].event.thread in SequencesOf(s', c)
              && SequencesOf(s', c)[all[i].event.thread] == all[i].sequence
    {
      assert i < |entries| ==> all[i] == entries[i];
    }
  }

  /** The sequences of the threads already there survive one more start, and the new one differs. */
  lemma KeysKept(s: State, s': State, entries: seq<Entry>, entry: Entry, c: ConversationId)
    requires DistinctStarts(entries + [entry], c) && DistinctStarts(entries, c) && InStartOrder(s, entries, c)
    requires ApplyEntry(s, entry) == Some(s')
    ensures var key, key' := SequenceKey(SequencesOf(s, c)), SequenceKey(SequencesOf(s', c));
            forall k :: 0 <= k < |s.conversations[c].threads| ==>
              && key'(s.conversations[c].threads[k]) == key(s.conversations[c].threads[k])
              && key'(s.conversations[c].threads[k]) != key'(NewThreadView((entries + [entry])[|entries|].event))
  {
    var threads := s.conversations[c].threads;
    var all := entries + [entry];
    var key, key' := SequenceKey(SequencesOf(s, c)), SequenceKey(SequencesOf(s', c));
    forall k | 0 <= k < |threads|
      ensures key'(threads[k]) == key(threads[k]) && key'(threads[k]) != key'(NewThreadView(all[|entries|].event))
    {
      assert threads[k] in threads;
      var i :| 0 <= i < |entries| && threads[k] == NewThreadView(entries[i].event);
      assert all[i] == entries[i] && all[i].event.thread != all[|entries|].event.thread;
      assert all[i].sequence != all[|entries|].sequence;
      assert key'(NewThreadView(all[|entries|].event)) == entry.sequence;
    }
  }

  lemma Extended(entries: seq<Entry>, entry: Entry, c: ConversationId, x: ThreadView)
    requires DistinctStarts(entries + [entry], c) && DistinctStarts(entries, c) && entry.event.ThreadStarted?
    ensures (exists i :: 0 <= i < |entries + [entry]| && x == NewThreadView((entries + [entry])[i].event))
       <==> (exists i :: 0 <= i < |entries| && x == NewThreadView(entries[i].event)) || x == NewThreadView(entry.event)
  {
    var all := entries + [entry];
    assert all[|entries|] == entry;
    if i :| 0 <= i < |entries| && x == NewThreadView(entries[i].event) {
      assert all[i] == entries[i];
    }
  }

  lemma {:induction false} StartsInOrder(s: State, entries: seq<Entry>, c: ConversationId)
    requires DistinctStarts(entries, c)
    requires c in s.conversations && s.conversations[c].threads == []
    ensures ApplyEach(s, entries).ok
    ensures InStartOrder(ApplyEach(s, entries).state, entries, c)
  {
    if entries != [] {
      var init, last := entries[..|entries| - 1], entries[|entries| - 1];
      assert entries == init + [last];
      StartsInOrder(s, init, c);
      OneMoreStart(ApplyEach(s, init).state, init, last, c);
      ApplyEachSplit(s, init, [last]);
      assert [last][1..] == [];
    }
  }

  lemma {:induction false} ApplyEachSplit(s: State, a: seq<Entry>, b: seq<Entry>)
    requires ApplyEach(s, a).ok
    ensures ApplyEach(s, a + b) == ApplyEach(ApplyEach(s, a).state, b)
    decreases |a|
  {
    if a == [] {
      assert a + b == b;
    } else {
      assert (a + b)[1..] == a[1..] + b;
      ApplyEachSplit(ApplyEntry(s, a[0]).value, a[1..], b);
    }
  }

  /** A batch that stops early stops there whatever follows. */
  lemma {:induction false} FailureStays(s: State, a: seq<Entry>, b: seq<Entry>)
    requires !ApplyEach(s, a).ok
    ensures ApplyEach(s, a + b) == ApplyEach(s, a)
    decreases |a|
  {
    assert (a + b)[0] == a[0] && (a + b)[1..] == a[1..] + b;
    if ApplyEntry(s, a[0]).Some? {
      FailureStays(ApplyEntry(s, a[0]).value, a[1..], b);
    }
  }

  /** What entries do does not depend on the checkpoint. */
  lemma {:induction false} CheckpointIgnored(s: State, entries: seq<Entry>, n: Sequence)
    ensures var r := ApplyEach(s, entries);
            ApplyEach(s.(checkpoint := n), entries) == r.(state := r.state.(checkpoint := n))
    decreases |entries|
  {
    if entries != [] {
      EntryIgnores(s, entries[0], n);
      if ApplyEntry(s, entries[0]).Some? {
        CheckpointIgnored(ApplyEntry(s, entries[0]).value, entries[1..], n);
      }
    }
  }

  lemma EntryIgnores(s: State, entry: Entry, n: Sequence)
    ensures ApplyEntry(s.(checkpoint := n), entry)
         == match ApplyEntry(s, entry) case None => None case Some(s') => Some(s'.(checkpoint := n))
  {
  }

  /** One Apply call or two: the same error or none, and the same state but for the checkpoint that the
      first of two calls has moved when the second fails. */
  lemma CallsSplit(s: State, a: seq<Entry>, b: seq<Entry>)
    ensures var first, whole := ApplyEntries(s, a), ApplyEntries(s, a + b);
            if !first.ok then whole == first
            else
              var second := ApplyEntries(first.state, b);
              && second.ok == whole.ok
              && (whole.ok ==> second == whole)
              && second.state.(checkpoint := whole.state.checkpoint) == whole.state
  {
    if ApplyEach(s, a).ok {
      ApplyEachSplit(s, a, b);
      CheckpointIgnored(ApplyEach(s, a).state, b, ApplyEntries(s, a).state.checkpoint);
      assert b == [] ==> a + b == a;
    } else {
      FailureStays(s, a, b);
    }
  }

  /** Apply calls one after the other, until one fails. */
  function ApplyCalls(s: State, calls: seq<seq<Entry>>): Outcome
    decreases |calls|
  {
    if calls == [] then Outcome(s, true)
    else
      var r := ApplyEntries(s, calls[0]);
      if r.ok then ApplyCalls(r.state, calls[1..]) else r
  }

  function AllOf(calls: seq<seq<Entry>>): seq<Entry>
    decreases |calls|
  {
    if calls == [] then [] else calls[0] + AllOf(calls[1..])
  }

  /** However a batch is split over Apply calls, the outcome is that of one call. */
  lemma {:induction false} CallsAreOne(s: State, calls: seq<seq<Entry>>)
    ensures var r, one := ApplyCalls(s, calls), ApplyEntries(s, AllOf(calls));
            && r.ok == one.ok
            && (one.ok ==> r == one)
            && r.state.(checkpoint := one.state.checkpoint) == one.state
    decreases |calls|
  {
    if calls != [] {
      CallsSplit(s, calls[0], AllOf(calls[1..]));
      if ApplyEntries(s, calls[0]).ok {
        CallsAreOne(ApplyEntries(s, calls[0]).state, calls[1..]);
      }
    }
  }

  /** The same starts, arriving in any two orders and split over any Apply calls, leave the same
      conversation, its threads strictly increasing in start sequence. */
  lemma ThreadOrderConfluent(s: State, calls: seq<seq<Entry>>, calls': seq<seq<Entry>>, c: ConversationId)
    requires DistinctStarts(AllOf(calls), c) && DistinctStarts(AllOf(calls'), c)
    requires forall e :: e in AllOf(calls) <==> e in AllOf(calls')
    requires c in s.conversations && s.conversations[c].threads == []
    ensures var r, r' := ApplyCalls(s, calls), ApplyCalls(s, calls');
            && r.ok && r'.ok
            && c in r.state.conversations && c in r'.state.conversations
            && r.state.conversations[c] == r'.state.conversations[c]
            && InStartOrder(r.state, AllOf(calls), c)
  {
    OrderConfluent(s, AllOf(calls), AllOf(calls'), c);
    CallsAreOne(s, calls);
    CallsAreOne(s, calls');
    var t, r := ApplyEach(s, AllOf(calls)).state, ApplyCalls(s, calls).state;
    assert r.conversations == t.conversations && r.threadSequences == t.threadSequences;
    assert SequencesOf(r, c) == SequencesOf(t, c);
  }

  lemma OrderConfluent(s: State, entries: seq<Entry>, entries': seq<Entry>, c: ConversationId)
    requires DistinctStarts(entries, c) && DistinctStarts(entries', c)
    requires forall e :: e in entries <==> e in entries'
    requires c in s.conversations && s.conversations[c].threads == []
    ensures var r, r' := ApplyEach(s, entries), ApplyEach(s, entries');
            && r.ok && r'.ok
            && c in r.state.conversations && c in r'.state.conversations
            && r.state.conversations[c] == r'.state.conversations[c]
            && InStartOrder(r.state, entries, c)
  {
    StartsInOrder(s, entries, c);
    StartsInOrder(s, entries', c);
    var t, t' := ApplyEach(s, entries).state, ApplyEach(s, entries').state;
    var threads, threads' := t.conversations[c].threads, t'.conversations[c].threads;
    var key := SequenceKey(SequencesOf(t, c));
    forall x ensures x in threads <==> x in threads' {
      SameMembers(t, entries, t', entries', c, x);
      SameMembers(t', entries', t, entries, c, x);
    }
    SortedBothWays(t, entries, t', entries', c);
    SortedUnique(threads, threads', key);
    ViewKept(s, entries, c);
    ViewKept(s, entries', c);
  }

  lemma SortedBothWays(t: State, entries: seq<Entry>, t': State, entries': seq<Entry>, c: ConversationId)
    requires DistinctStarts(entries, c) && DistinctStarts(entries', c)
    requires InStartOrder(t, entries, c) && InStartOrder(t', entries', c)
    requires forall e :: e in entries <==> e in entries'
    ensures StrictlySortedBy(t'.conversations[c].threads, SequenceKey(SequencesOf(t, c)))
  {
    var threads' := t'.conversations[c].threads;
    var key, key' := SequenceKey(SequencesOf(t, c)), SequenceKey(SequencesOf(t', c));
    forall k | 0 <= k < |threads'| ensures key(threads'[k]) == key'(threads'[k]) {
      assert threads'[k] in threads';
      var i :| 0 <= i < |entries'| && threads'[k] == NewThreadView(entries'[i].event);
      assert entries'[i] in entries;
      var j :| 0 <= j < |entries| && entries[j] == entries'[i];
    }
  }

  lemma SameMembers(t: State, entries: seq<Entry>, t': State, entries': seq<Entry>, c: ConversationId, x: ThreadView)
    requires DistinctStarts(entries, c) && DistinctStarts(entries', c)
    requires InStartOrder(t, entries, c) && InStartOrder(t', entries', c)
    requires forall e :: e in entries ==> e in entries'
    ensures x in t.conversations[c].threads ==> x in t'.conversations[c].threads
  {
    if x in t.conversations[c].threads {
      var i :| 0 <= i < |entries| && x == NewThreadView(entries[i].event);
      assert entries[i] in entries';
      var j :| 0 <= j < |entries'| && entries'[j] == entries[i];
      assert x == NewThreadView(entries'[j].event);
    }
  }

  /** Starting threads leaves a conversation's id and URL alone. */
  lemma {:induction false} ViewKept(s: State, entries: seq<Entry>, c: ConversationId)
    requires DistinctStarts(entries, c) && c in s.conversations
    ensures ApplyEach(s, entries).ok ==>
      && c in ApplyEach(s, entries).state.conversations
      && ApplyEach(s, entries).state.conversations[c].id == s.conversations[c].id
      && ApplyEach(s, entries).state.conversations[c].url == s.conversations[c].url
    decreases |entries|
  {
    if entries != [] {
      ViewKept(ApplyEntry(s, entries[0]).value, entries[1..], c);
    }
  }
}
