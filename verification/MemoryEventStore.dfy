/** The in-memory event store and outbox. */
module MemoryEventStore {
  import opened Collections
  import opened Domain
  import opened Outbox
  import Aggregate
  import MemoryLaws

  class EventStore {
    var records: seq<Entry>
    var pending: map<Sequence, Event>

    /** Records are numbered 1, 2, and so on, and only recorded events are pending. */
    ghost predicate Valid()
      reads this
    {
      && records == EntriesFrom(0, EventsOf(records))
      && (forall n :: n in pending ==> 1 <= n <= |records| && pending[n] == records[n - 1].event)
    }

    function Log(): seq<Event>
      reads this
    {
      EventsOf(records)
    }

    constructor ()
      ensures Valid() && records == [] && pending == map[]
    {
      records, pending := [], map[];
    }

    /** The whole batch in one step; the last event's sequence, or 0 for an empty batch. */
    method Append(events: seq<Event>) returns (sequence: Sequence)
      requires Valid()
      modifies this
      ensures Valid() && Log() == old(Log()) + events
      ensures sequence == if events == [] then 0 else |records|
      ensures forall n :: n in pending <==> n in old(pending) || old(|records|) < n <= |records|
    {
      sequence := 0;
      for i := 0 to |events|
        invariant Valid() && Log() == old(Log()) + events[..i]
        invariant sequence == if i == 0 then 0 else |records|
        invariant forall n :: n in pending <==> n in old(pending) || old(|records|) < n <= |records|
      {
        sequence := |records| + 1;
        records := records + [Entry(sequence, events[i])];
        pending := pending[sequence := events[i]];
      }
    }

    method ListByConversation(c: ConversationId) returns (found: seq<Entry>)
      ensures found == MemoryLaws.About(records, c)
    {
      found := [];
      for i := 0 to |records|
        invariant MemoryLaws.About(records, c) == found + MemoryLaws.About(records[i..], c)
      {
        assert records[i..][0] == records[i] && records[i..][1..] == records[i + 1..];
        if records[i].event.conversation == c {
          found := found + [records[i]];
        }
      }
    }

    method Pending() returns (entries: seq<Entry>)
      requires Valid()
      ensures entries == Listing(pending, |records|)
    {
      var sequences: seq<Sequence> := [];
      var keys := pending.Keys;
      while keys != {}
        invariant keys <= pending.Keys
        invariant forall n :: n in sequences <==> n in pending && n !in keys
        invariant NoDuplicates(sequences)
      {
        var n :| n in keys;
        sequences := sequences + [n];
        keys := keys - {n};
      }
      var sorted := SortBy(sequences, Itself());
      SortedKeys(sequences, pending);
      entries := [];
      for i := 0 to |sorted|
        invariant |entries| == i
        invariant forall j :: 0 <= j < i ==> entries[j] == Entry(sorted[j], pending[sorted[j]])
      {
        assert sorted[i] in sorted;
        entries := entries + [Entry(sorted[i], pending[sorted[i]])];
      }
      ListsPending(entries, sorted, pending, |records|);
    }

    method MarkDone(sequence: Sequence)
      requires Valid()
      modifies this`pending
      ensures Valid() && pending == old(pending) - {sequence}
    {
      pending := pending - {sequence};
    }
  }

  /** Listing one conversation picks out its entries and keeps their order. */
  lemma {:induction false} AboutFacts(entries: seq<Entry>, c: ConversationId)
    ensures forall x :: x in MemoryLaws.About(entries, c) <==> x in entries && x.event.conversation == c
    ensures StrictlySortedBy(entries, EntrySequence()) ==>
      StrictlySortedBy(MemoryLaws.About(entries, c), EntrySequence())
    decreases |entries|
  {
    if entries != [] {
      AboutFacts(entries[1..], c);
      assert entries == [entries[0]] + entries[1..];
      if StrictlySortedBy(entries, EntrySequence()) {
        assert StrictlySortedBy(entries[1..], EntrySequence());
        SmallestFirst(entries, MemoryLaws.About(entries[1..], c));
      }
    }
  }

  lemma SmallestFirst(entries: seq<Entry>, rest: seq<Entry>)
    requires entries != [] && StrictlySortedBy(entries, EntrySequence()) && StrictlySortedBy(rest, EntrySequence())
    requires forall x :: x in rest ==> x in entries[1..]
    ensures StrictlySortedBy([entries[0]] + rest, EntrySequence())
  {
    forall j | 0 <= j < |rest| ensures entries[0].sequence < rest[j].sequence {
      assert rest[j] in entries[1..];
      var i :| 0 <= i < |entries[1..]| && entries[1..][i] == rest[j];
      assert EntrySequence()(entries[0]) < EntrySequence()(entries[i + 1]);
    }
  }

  /** That listing is exactly the pending entries, in increasing order. */
  lemma PendingFacts(pending: map<Sequence, Event>, n: nat)
    requires forall k :: k in pending ==> 1 <= k <= n
    ensures StrictlySortedBy(Listing(pending, n), EntrySequence())
    ensures forall x :: x in Listing(pending, n) <==> x.sequence in pending && x.event == pending[x.sequence]
  {
    ListingFacts(pending, n);
  }

  function Itself(): Sequence -> int { (n: Sequence) => n }

  lemma SortedKeys(sequences: seq<Sequence>, pending: map<Sequence, Event>)
    requires NoDuplicates(sequences) && forall n :: n in sequences <==> n in pending
    ensures var sorted := SortBy(sequences, Itself());
            StrictlySortedBy(sorted, Itself()) && forall n :: n in sorted <==> n in pending
  {
    SortByStrict(sequences, Itself());
    forall n ensures n in SortBy(sequences, Itself()) <==> n in pending {
      SortByMembers(sequences, Itself(), n);
    }
  }

  lemma ListsPending(entries: seq<Entry>, sorted: seq<Sequence>, pending: map<Sequence, Event>, n: nat)
    requires StrictlySortedBy(sorted, Itself()) && forall k :: k in sorted <==> k in pending
    requires |entries| == |sorted|
    requires forall j :: 0 <= j < |sorted| ==>
      sorted[j] in pending && entries[j] == Entry(sorted[j], pending[sorted[j]])
    requires forall k :: k in pending ==> 1 <= k <= n
    ensures entries == Listing(pending, n)
  {
    ListingFacts(pending, n);
    forall i, j | 0 <= i < j < |entries| ensures EntrySequence()(entries[i]) < EntrySequence()(entries[j]) {
      assert Itself()(sorted[i]) < Itself()(sorted[j]);
    }
    forall e ensures e in entries <==> e in Listing(pending, n) {
      if e in Listing(pending, n) {
        assert e.sequence in sorted;
        var j :| 0 <= j < |sorted| && sorted[j] == e.sequence;
        assert entries[j] == e;
      }
      if e in entries {
        var j :| 0 <= j < |entries| && entries[j] == e;
        assert sorted[j] in pending;
      }
    }
    SortedUnique(entries, Listing(pending, n), EntrySequence());
  }

  /** What listing one conversation returns, as events, is what the aggregate calls its own. */
  lemma {:induction false} ListingIsOwn(log: seq<Event>, c: ConversationId)
    ensures EventsOf(MemoryLaws.About(EntriesFrom(0, log), c)) == Aggregate.Own(log, c)
  {
    if log != [] {
      var init, e := log[..|log| - 1], log[|log| - 1];
      ListingIsOwn(init, c);
      assert EntriesFrom(0, log) == EntriesFrom(0, init) + [Entry(|log|, e)];
      AboutAppend(EntriesFrom(0, init), [Entry(|log|, e)], c);
      var last := MemoryLaws.About([Entry(|log|, e)], c);
      assert last == if e.conversation == c then [Entry(|log|, e)] else [];
      assert EventsOf(MemoryLaws.About(EntriesFrom(0, init), c) + last)
          == EventsOf(MemoryLaws.About(EntriesFrom(0, init), c)) + EventsOf(last);
    }
  }

  lemma {:induction false} AboutAppend(a: seq<Entry>, b: seq<Entry>, c: ConversationId)
    ensures MemoryLaws.About(a + b, c) == MemoryLaws.About(a, c) + MemoryLaws.About(b, c)
    decreases |a|
  {
    if a == [] {
      assert a + b == b;
    } else {
      assert (a + b)[1..] == a[1..] + b;
      AboutAppend(a[1..], b, c);
    }
  }
}
