/** The Postgres store as a class over its tables. A transaction works on copies and either replaces
    the fields or leaves them; what the database may refuse is a parameter. */
module PostgresStore {
  import opened Collections
  import opened Domain
  import opened Outbox
  import opened PostgresTables
  import opened ParticipantQueries

  datatype OutboxRow = OutboxRow(event: Event, done: bool)

  /** The event table with a batch's rows inserted, numbered from `first`. */
  function InsertEvents(events: map<Sequence, Event>, first: Sequence, batch: seq<Event>): (r: map<Sequence, Event>)
    ensures forall n :: n in r <==> n in events || first <= n < first + |batch|
    ensures forall n :: n in r ==> r[n] == if first <= n < first + |batch| then batch[n - first] else events[n]
  {
    if batch == [] then events
    else
      var init := batch[..|batch| - 1];
      InsertEvents(events, first, init)[first + |init| := batch[|init|]]
  }

  function EnqueueAll(outbox: map<Sequence, OutboxRow>, first: Sequence, batch: seq<Event>)
    : (r: map<Sequence, OutboxRow>)
    ensures forall n :: n in r <==> n in outbox || first <= n < first + |batch|
    ensures forall n :: n in r ==>
      r[n] == if first <= n < first + |batch| then OutboxRow(batch[n - first], false) else outbox[n]
  {
    if batch == [] then outbox
    else
      var init := batch[..|batch| - 1];
      EnqueueAll(outbox, first, init)[first + |init| := OutboxRow(batch[|init|], false)]
  }

  /** ListConversationEvents over the numbers up to n: c's rows in sequence order. */
  function EventRows(events: map<Sequence, Event>, c: ConversationId, n: nat): seq<Entry> {
    if n == 0 then []
    else
      EventRows(events, c, n - 1)
      + (if n in events && events[n].conversation == c then [Entry(n, events[n])] else [])
  }

  /** Each of c's rows up to n with its own number, in sequence order, and nothing else. */
  lemma {:induction false} EventRowsFacts(events: map<Sequence, Event>, c: ConversationId, n: nat)
    ensures StrictlySortedBy(EventRows(events, c, n), EntrySequence())
    ensures forall x :: x in EventRows(events, c, n)
              <==> 1 <= x.sequence <= n && x.sequence in events && events[x.sequence] == x.event
                   && x.event.conversation == c
  {
    if n > 0 {
      EventRowsFacts(events, c, n - 1);
      var before := EventRows(events, c, n - 1);
      assert forall i :: 0 <= i < |before| ==> before[i] in before;
    }
  }

  /** The outbox rows without a done_at. */
  function PendingOf(outbox: map<Sequence, OutboxRow>): map<Sequence, Event> {
    map n | n in outbox && !outbox[n].done :: outbox[n].event
  }

  lemma OneMoreRow(events: map<Sequence, Event>, outbox: map<Sequence, OutboxRow>, first: Sequence,
                   batch: seq<Event>, i: nat)
    requires i < |batch|
    ensures InsertEvents(events, first, batch[..i + 1])
         == InsertEvents(events, first, batch[..i])[first + i := batch[i]]
    ensures EnqueueAll(outbox, first, batch[..i + 1])
         == EnqueueAll(outbox, first, batch[..i])[first + i := OutboxRow(batch[i], false)]
  {
    assert batch[..i + 1][..i] == batch[..i];
  }

  /** Why an append does not go through: the insert of the event at some position, the insert of its outbox
      row, or the commit. An append that cannot begin inserts nothing. */
  datatype Trouble = NoTrouble | InsertFails(at: nat) | EnqueueFails(at: nat) | CommitFails

  class Store {
    var events: map<Sequence, Event>
    var outbox: map<Sequence, OutboxRow>
    var nextSequence: Sequence
    var tables: Tables

    constructor ()
      ensures events == map[] && outbox == map[] && nextSequence == 1 && tables == EMPTY_TABLES
    {
      events, outbox, nextSequence, tables := map[], map[], 1, EMPTY_TABLES;
    }

    /** Rows numbered so far are below nextSequence. */
    ghost predicate Valid()
      reads this
    {
      && nextSequence >= 1
      && (forall n :: n in events ==> 1 <= n < nextSequence)
      && outbox.Keys == events.Keys
      && (forall n :: n in events ==> outbox[n].event == events[n])
    }

    /** A rolled-back append leaves the tables alone but never gives back the numbers it drew: one for each
        event inserted, the one whose outbox row is refused included. */
    method Append(batch: seq<Event>, trouble: Trouble) returns (r: Option<Sequence>)
      requires Valid()
      modifies this
      ensures Valid() && tables == old(tables)
      ensures r.None? <==> match trouble
                           case NoTrouble => false
                           case CommitFails => true
                           case _ => trouble.at < |batch|
      ensures r.None? ==> events == old(events) && outbox == old(outbox)
      ensures nextSequence == old(nextSequence)
        + if trouble.InsertFails? && trouble.at < |batch| then trouble.at
          else if trouble.EnqueueFails? && trouble.at < |batch| then trouble.at + 1
          else |batch|
      ensures r.Some? ==>
        && r.value == (if batch == [] then 0 else nextSequence - 1)
        && events == InsertEvents(old(events), old(nextSequence), batch)
        && outbox == EnqueueAll(old(outbox), old(nextSequence), batch)
    {
      var events', outbox' := events, outbox;
      var sequence: Sequence := 0;
      for i := 0 to |batch|
        invariant events == old(events) && outbox == old(outbox) && tables == old(tables)
        invariant nextSequence == old(nextSequence) + i
        invariant trouble.InsertFails? || trouble.EnqueueFails? ==> i <= trouble.at
        invariant sequence == if i == 0 then 0 else nextSequence - 1
        invariant events' == InsertEvents(events, old(nextSequence), batch[..i])
        invariant outbox' == EnqueueAll(outbox, old(nextSequence), batch[..i])
      {
        if trouble == InsertFails(i) {
          return None;
        }
        OneMoreRow(events, outbox, old(nextSequence), batch, i);
        sequence := nextSequence;
        nextSequence := nextSequence + 1;
        events' := events'[sequence := batch[i]];
        if trouble == EnqueueFails(i) {
          return None;
        }
        outbox' := outbox'[sequence := OutboxRow(batch[i], false)];
      }
      assert batch[..|batch|] == batch;
      if trouble.CommitFails? {
        return None;
      }
      events, outbox := events', outbox';
      return Some(sequence);
    }

    method ListByConversation(c: ConversationId) returns (records: seq<Entry>)
      requires Valid()
      ensures records == EventRows(events, c, nextSequence - 1)
      ensures StrictlySortedBy(records, EntrySequence())
      ensures forall x :: x in records
                <==> x.sequence in events && events[x.sequence] == x.event && x.event.conversation == c
    {
      EventRowsFacts(events, c, nextSequence - 1);
      records := [];
      for n := 1 to nextSequence
        invariant records == EventRows(events, c, n - 1)
      {
        if n in events && events[n].conversation == c {
          records := records + [Entry(n, events[n])];
        }
      }
    }

    method Pending() returns (entries: seq<Entry>)
      requires Valid()
      ensures entries == Listing(PendingOf(outbox), nextSequence - 1)
      ensures StrictlySortedBy(entries, EntrySequence())
      ensures forall x :: x in entries
                <==> x.sequence in outbox && !outbox[x.sequence].done && outbox[x.sequence].event == x.event
    {
      ListingFacts(PendingOf(outbox), nextSequence - 1);
      entries := [];
      for n := 1 to nextSequence
        invariant entries == Listing(PendingOf(outbox), n - 1)
      {
        if n in outbox && !outbox[n].done {
          entries := entries + [Entry(n, outbox[n].event)];
        }
      }
    }

    method MarkDone(sequence: Sequence)
      requires Valid()
      modifies this`outbox
      ensures Valid()
      ensures outbox == if sequence in old(outbox) then old(outbox)[sequence := old(outbox)[sequence].(done := true)]
                        else old(outbox)
    {
      if sequence in outbox {
        outbox := outbox[sequence := outbox[sequence].(done := true)];
      }
    }

    method Apply(entries: seq<Entry>) returns (ok: bool)
      modifies this`tables
      ensures ok <==> ApplyBatch(old(tables), entries).Some?
      ensures tables == if ok then ApplyBatch(old(tables), entries).value else old(tables)
    {
      var tables' := tables;
      for i := 0 to |entries|
        invariant tables == old(tables)
        invariant ApplyRows(tables, entries) == ApplyRows(tables', entries[i..])
      {
        assert entries[i..][0] == entries[i] && entries[i..][1..] == entries[i + 1..];
        match ApplyRow(tables', entries[i]) {
          case None => return false;
          case Some(next) => tables' := next;
        }
      }
      tables := SetCheckpoint(tables', entries);
      return true;
    }

    /** The three reads see whatever was committed when each of them ran. */
    static method Get(at: Moments, c: ConversationId) returns (r: Result<ConversationView, Error>)
      ensures r == Assemble(c, ConversationRow(at.row, c), ListThreads(at.threads, c), ListMessages(at.messages, c))
    {
      var row := ConversationRow(at.row, c);
      var rows := ListThreads(at.threads, c);
      var posts := ListMessages(at.messages, c);
      if |rows| == 0 {
        return Failure(ConversationNotFound);
      }
      if row.None? {
        return Failure(ConversationNotFound);
      }
      var threads := AssembleThreads(rows, posts);
      return Success(ConversationView(c, row.value, threads));
    }

    /** `ids` is what ListConversationIDsByParticipant returned, and `at` has what was committed when the
        three queries for each of them ran. */
    static method GetByParticipant(p: ParticipantId, ids: seq<ConversationId>, at: seq<Moments>)
      returns (views: seq<ConversationView>)
      requires |at| == |ids|
      ensures views == ViewsAt(at, p, ids)
    {
      views := [];
      for i := 0 to |ids|
        invariant views == ViewsAt(at[..i], p, ids[..i])
      {
        assert ids[..i + 1][..i] == ids[..i] && at[..i + 1][..i] == at[..i];
        var row := ConversationRow(at[i].row, ids[i]);
        if row.None? {
          continue;
        }
        var rows := ParticipantThreads(at[i].threads, ids[i], p);
        var posts := ParticipantMessages(at[i].messages, ids[i], p);
        var threads := AssembleThreads(rows, posts);
        views := views + [ConversationView(ids[i], row.value, threads)];
      }
      assert ids[..|ids|] == ids && at[..|at|] == at;
    }
  }
}
