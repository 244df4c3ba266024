/** Transactions of the Postgres protocol against the tables of the store: what an append that nobody
    interferes with does, and what listing a conversation reads. */
module PostgresTransactions {
  import opened Collections
  import opened Domain
  import opened Outbox
  import opened PostgresProtocol
  import opened PostgresInvariant
  import opened PostgresSteps
  import opened PostgresRuns
  import PostgresStore
  import Aggregate

  /** conversation_events: what committed transactions inserted. */
  ghost function EventTable(s: State): map<Sequence, Event>
    requires Shaped(s)
  {
    map n: Sequence | 1 <= n <= |s.log| && IsCommitted(s, n) :: s.log[n - 1]
  }

  /** conversation_outbox. */
  ghost function OutboxTable(s: State): map<Sequence, PostgresStore.OutboxRow>
    requires Shaped(s)
  {
    map n: Sequence | 1 <= n <= |s.log| && IsCommitted(s, n) :: PostgresStore.OutboxRow(s.log[n - 1], n in s.done)
  }

  /** What ListByConversation returns from it is what a membership command rehydrates from, each event with
      the number its row drew. */
  lemma EventsListed(s: State, c: ConversationId)
    requires Shaped(s)
    ensures var rows := PostgresStore.EventRows(EventTable(s), c, |s.log|);
            && EventsOf(rows) == Aggregate.Own(CommittedLog(s, |s.log|), c)
            && StrictlySortedBy(rows, EntrySequence())
            && forall x :: x in rows <==> IsCommitted(s, x.sequence) && s.log[x.sequence - 1] == x.event
                                          && x.event.conversation == c
  {
    ListedEventsAreOwn(s, c, |s.log|);
    PostgresStore.EventRowsFacts(EventTable(s), c, |s.log|);
  }

  lemma {:induction false} ListedEventsAreOwn(s: State, c: ConversationId, n: nat)
    requires Shaped(s) && n <= |s.log|
    ensures EventsOf(PostgresStore.EventRows(EventTable(s), c, n)) == Aggregate.Own(CommittedLog(s, n), c)
  {
    if n > 0 {
      ListedEventsAreOwn(s, c, n - 1);
      if IsCommitted(s, n) {
        Aggregate.OwnSnoc(CommittedLog(s, n - 1), s.log[n - 1], c);
      }
      var before := PostgresStore.EventRows(EventTable(s), c, n - 1);
      assert EventsOf(before + [Entry(n, s.log[n - 1])]) == EventsOf(before) + [s.log[n - 1]];
      assert before + [] == before && CommittedLog(s, n - 1) + [] == CommittedLog(s, n - 1);
      assert Aggregate.Own(CommittedLog(s, n - 1), c) + [] == Aggregate.Own(CommittedLog(s, n - 1), c);
    }
  }

  // An append alone

  function Numbers(first: Sequence, n: nat): (r: seq<Sequence>)
    ensures |r| == n && forall i :: 0 <= i < n ==> r[i] == first + i
  {
    seq(n, i requires 0 <= i < n => first + i)
  }

  function Copies(k: nat, n: nat): (r: seq<nat>)
    ensures |r| == n && forall i :: 0 <= i < n ==> r[i] == k
  {
    seq(n, i => k)
  }

  /** The state with the first n rows of command k inserted. */
  function Inserted(s: State, k: nat, n: nat, phase: Phase): State
    requires k in s.commands && n <= |s.commands[k].batch|
  {
    var batch := s.commands[k].batch;
    s.(log := s.log + batch[..n],
       owner := s.owner + Copies(k, n),
       commands := s.commands[k := Command(batch, Numbers(|s.log| + 1, n), phase)])
  }

  /** And with the whole batch committed. */
  function Appended(s: State, k: nat): State
    requires k in s.commands
  {
    Inserted(s, k, |s.commands[k].batch|, Committed)
  }

  lemma OneInserted(s: State, k: nat, n: nat)
    requires Shaped(s) && k in s.commands && n < |s.commands[k].batch|
    ensures var s' := Inserted(s, k, n, if n == 0 then Ready else Open);
            Shaped(s') && Enabled(s', Insert(k)) && After(s', Insert(k)) == Inserted(s, k, n + 1, Open)
  {
    var batch := s.commands[k].batch;
    assert batch[..n + 1] == batch[..n] + [batch[n]];
    assert Copies(k, n + 1) == Copies(k, n) + [k];
    assert Numbers(|s.log| + 1, n + 1) == Numbers(|s.log| + 1, n) + [|s.log| + n + 1];
  }

  lemma {:induction false} InsertAll(run: seq<State>, k: nat, n: nat) returns (run': seq<State>)
    requires IsRun(run) && Shaped(Last(run)) && k in Last(run).commands
    requires n <= |Last(run).commands[k].batch|
    requires Last(run).commands[k] == Command(Last(run).commands[k].batch, [], Ready)
    ensures IsRun(run') && Last(run') == Inserted(Last(run), k, n, if n == 0 then Ready else Open)
  {
    var s := Last(run);
    if n == 0 {
      run' := run;
      assert s.log + s.commands[k].batch[..0] == s.log && s.owner + Copies(k, 0) == s.owner;
      assert s.commands[k := s.commands[k]] == s.commands;
    } else {
      var before := InsertAll(run, k, n - 1);
      OneInserted(s, k, n - 1);
      OneMoreStep(before, Insert(k));
      run' := before + [After(Last(before), Insert(k))];
    }
  }

  /** A transaction nobody interferes with numbers its whole batch consecutively and commits it; the event
      and outbox tables change as one call of the store's Append changes them. */
  lemma LoneAppend(run: seq<State>, k: nat) returns (run': seq<State>)
    requires IsRun(run) && k in Last(run).commands && Last(run).commands[k].phase == Ready
    ensures IsRun(run') && Last(run') == Appended(Last(run), k)
    ensures Shaped(Last(run)) && Shaped(Last(run'))
    ensures var s, batch := Last(run), Last(run).commands[k].batch;
            && EventTable(Last(run')) == PostgresStore.InsertEvents(EventTable(s), |s.log| + 1, batch)
            && OutboxTable(Last(run')) == PostgresStore.EnqueueAll(OutboxTable(s), |s.log| + 1, batch)
  {
    var s := Last(run);
    RunKeepsInv(run, |run| - 1);
    ReadyToAppend(s, k);
    var inserted := InsertAll(run, k, |s.commands[k].batch|);
    OneMoreStep(inserted, Commit(k));
    run' := inserted + [After(Last(inserted), Commit(k))];
    AppendedEvents(s, k);
    AppendedOutbox(s, k);
  }

  /** One that is rolled back after n of its inserts leaves both tables as they were, and the next number
      drawn is n further on: a call of Append that meets trouble. */
  lemma LoneRollback(run: seq<State>, k: nat, n: nat) returns (run': seq<State>)
    requires IsRun(run) && k in Last(run).commands && Last(run).commands[k].phase == Ready
    requires n <= |Last(run).commands[k].batch|
    ensures IsRun(run') && Last(run') == Inserted(Last(run), k, n, RolledBack)
    ensures Shaped(Last(run)) && Shaped(Last(run')) && |Last(run').log| == |Last(run).log| + n
    ensures EventTable(Last(run')) == EventTable(Last(run)) && OutboxTable(Last(run')) == OutboxTable(Last(run))
  {
    var s := Last(run);
    RunKeepsInv(run, |run| - 1);
    ReadyToAppend(s, k);
    var inserted := InsertAll(run, k, n);
    OneMoreStep(inserted, Rollback(k));
    run' := inserted + [After(Last(inserted), Rollback(k))];
    RolledBackTables(s, k, n);
  }

  lemma RolledBackTables(s: State, k: nat, n: nat)
    requires Shaped(s) && Ledger(s) && k in s.commands && s.commands[k].phase == Ready
    requires n <= |s.commands[k].batch|
    ensures var s' := Inserted(s, k, n, RolledBack);
            Shaped(s') && EventTable(s') == EventTable(s) && OutboxTable(s') == OutboxTable(s)
  {
    var s' := Inserted(s, k, n, RolledBack);
    forall i: Sequence ensures IsCommitted(s', i) <==> IsCommitted(s, i) {
      if 1 <= i <= |s.log| {
        assert RowOk(s, i - 1);
        assert s'.owner[i - 1] == s.owner[i - 1];
      } else if |s.log| < i <= |s'.log| {
        assert s'.owner[i - 1] == Copies(k, n)[i - 1 - |s.log|] == k;
      }
    }
    assert s'.log[..|s.log|] == s.log;
  }

  // The relay's side of the outbox

  /** What listing the outbox reads from its table is what the relay lists. */
  lemma PendingIsListed(s: State)
    requires Shaped(s)
    ensures PostgresStore.PendingOf(OutboxTable(s)) == PendingRows(s)
    ensures s.relay.Idle? ==>
      After(s, RelayList).relay == Listed(Listing(PostgresStore.PendingOf(OutboxTable(s)), |s.log|))
  {
  }

  /** And what marking does to the outbox is one call of MarkDone, whatever the event table. */
  lemma MarkedIsDone(s: State)
    requires Shaped(s) && s.relay.Marking? && s.relay.rest != []
    ensures var s', n, table := After(s, RelayMark), s.relay.rest[0], OutboxTable(s);
            && Shaped(s') && EventTable(s') == EventTable(s)
            && OutboxTable(s') == if n in table then table[n := table[n].(done := true)] else table
  {
    var s' := After(s, RelayMark);
    assert forall n :: IsCommitted(s', n) <==> IsCommitted(s, n);
  }

  lemma ReadyToAppend(s: State, k: nat)
    requires Inv(s) && k in s.commands && s.commands[k].phase == Ready
    ensures s.commands[k] == Command(s.commands[k].batch, [], Ready) && s.commands[k].batch != []
    ensures forall n :: n in s.done ==> n <= |s.log|
    ensures var s' := Inserted(s, k, |s.commands[k].batch|, Open);
            Shaped(s') && Enabled(s', Commit(k)) && After(s', Commit(k)) == Appended(s, k)
  {
    assert CommandOk(s, k);
    assert SnapshotOk(s, s.snapshots[|s.snapshots| - 1]);
  }

  lemma AppendedEvents(s: State, k: nat)
    requires Shaped(s) && Ledger(s) && k in s.commands && s.commands[k].phase == Ready
    ensures Shaped(Appended(s, k))
    ensures EventTable(Appended(s, k))
         == PostgresStore.InsertEvents(EventTable(s), |s.log| + 1, s.commands[k].batch)
  {
    var table, batch := EventTable(Appended(s, k)), s.commands[k].batch;
    assert batch[..|batch|] == batch;
    forall n: Sequence ensures n in table <==> n in EventTable(s) || |s.log| < n <= |s.log| + |batch| {
      CommittedByThen(s, k, n);
    }
    EventsGrow(s.log, batch, EventTable(s), table);
  }

  lemma AppendedOutbox(s: State, k: nat)
    requires Shaped(s) && Ledger(s) && (forall n :: n in s.done ==> n <= |s.log|)
    requires k in s.commands && s.commands[k].phase == Ready
    ensures Shaped(Appended(s, k))
    ensures OutboxTable(Appended(s, k))
         == PostgresStore.EnqueueAll(OutboxTable(s), |s.log| + 1, s.commands[k].batch)
  {
    var table, batch := OutboxTable(Appended(s, k)), s.commands[k].batch;
    assert batch[..|batch|] == batch;
    forall n: Sequence ensures n in table <==> n in OutboxTable(s) || |s.log| < n <= |s.log| + |batch| {
      CommittedByThen(s, k, n);
    }
    OutboxGrows(s.log, batch, s.done, OutboxTable(s), table);
  }

  lemma EventsGrow(log: seq<Event>, batch: seq<Event>, table: map<Sequence, Event>, table': map<Sequence, Event>)
    requires forall n :: n in table' <==> n in table || |log| < n <= |log| + |batch|
    requires forall n :: n in table ==> 1 <= n <= |log| && table[n] == log[n - 1]
    requires forall n :: n in table' ==> 1 <= n <= |log + batch| && table'[n] == (log + batch)[n - 1]
    ensures table' == PostgresStore.InsertEvents(table, |log| + 1, batch)
  {
  }

  lemma OutboxGrows(log: seq<Event>, batch: seq<Event>, done: set<Sequence>,
                    table: map<Sequence, PostgresStore.OutboxRow>, table': map<Sequence, PostgresStore.OutboxRow>)
    requires forall n :: n in done ==> n <= |log|
    requires forall n :: n in table' <==> n in table || |log| < n <= |log| + |batch|
    requires forall n :: n in table ==>
      1 <= n <= |log| && table[n] == PostgresStore.OutboxRow(log[n - 1], n in done)
    requires forall n :: n in table' ==>
      1 <= n <= |log + batch| && table'[n] == PostgresStore.OutboxRow((log + batch)[n - 1], n in done)
    ensures table' == PostgresStore.EnqueueAll(table, |log| + 1, batch)
  {
  }

  lemma CommittedByThen(s: State, k: nat, n: Sequence)
    requires Shaped(s) && Ledger(s) && k in s.commands && s.commands[k].phase == Ready
    ensures Shaped(Appended(s, k))
    ensures IsCommitted(Appended(s, k), n)
       <==> IsCommitted(s, n) || |s.log| < n <= |s.log| + |s.commands[k].batch|
  {
    assert CommandOk(s, k);
    if 1 <= n <= |s.log| {
      assert RowOk(s, n - 1);
    }
  }
}
