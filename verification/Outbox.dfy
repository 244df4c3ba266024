/** The outbox as the relay sees it: the pending entries in sequence order, and the gap-free run a
    drain takes from them. */
module Outbox {
  import opened Collections
  import opened Domain

  function EntrySequence(): Entry -> int { (entry: Entry) => entry.sequence }

  /** The pending entries numbered 1 to n, in sequence order. */
  function Listing(pending: map<Sequence, Event>, n: nat): seq<Entry> {
    if n == 0 then []
    else Listing(pending, n - 1) + (if n in pending then [Entry(n, pending[n])] else [])
  }

  lemma {:induction false} ListingFacts(pending: map<Sequence, Event>, n: nat)
    ensures StrictlySortedBy(Listing(pending, n), EntrySequence())
    ensures forall e :: e in Listing(pending, n)
              <==> 1 <= e.sequence <= n && e.sequence in pending && e.event == pending[e.sequence]
  {
    if n > 0 {
      ListingFacts(pending, n - 1);
      var before := Listing(pending, n - 1);
      assert forall i :: 0 <= i < |before| ==> before[i] in before;
    }
  }

  /** The longest prefix numbered next, next + 1, and so on. */
  function TakeRun(entries: seq<Entry>, next: Sequence): seq<Entry> {
    if entries == [] || entries[0].sequence != next then []
    else [entries[0]] + TakeRun(entries[1..], next + 1)
  }

  method ContiguousRun(pending: seq<Entry>, checkpoint: Sequence) returns (run: seq<Entry>)
    ensures run == TakeRun(pending, checkpoint + 1)
  {
    var next: Sequence := checkpoint + 1;
    run := [];
    for i := 0 to |pending|
      invariant TakeRun(pending, checkpoint + 1) == run + TakeRun(pending[i..], next)
    {
      var entry := pending[i];
      assert pending[i..][0] == entry && pending[i..][1..] == pending[i + 1..];
      if entry.sequence != next {
        break;
      }
      run := run + [entry];
      next := next + 1;
    }
  }

  lemma {:induction false} RunShape(entries: seq<Entry>, next: Sequence)
    ensures var run := TakeRun(entries, next);
            && |run| <= |entries| && run == entries[..|run|]
            && (forall i :: 0 <= i < |run| ==> run[i].sequence == next + i)
            && (|run| < |entries| ==> entries[|run|].sequence != next + |run|)
    decreases |entries|
  {
    if entries != [] && entries[0].sequence == next {
      RunShape(entries[1..], next + 1);
      var rest := TakeRun(entries[1..], next + 1);
      assert TakeRun(entries, next) == [entries[0]] + rest;
    }
  }

  /** Pending entries numbered next, next + 1, and so on. */
  ghost predicate PendingRun(run: seq<Entry>, pending: map<Sequence, Event>, next: Sequence) {
    forall i :: 0 <= i < |run| ==>
      && run[i].sequence == next + i
      && run[i].sequence in pending
      && run[i].event == pending[run[i].sequence]
  }

  lemma RunIsPending(pending: map<Sequence, Event>, n: nat, next: Sequence)
    ensures PendingRun(TakeRun(Listing(pending, n), next), pending, next)
  {
    var entries := Listing(pending, n);
    var run := TakeRun(entries, next);
    ListingFacts(pending, n);
    RunShape(entries, next);
    forall i | 0 <= i < |run|
      ensures run[i].sequence == next + i && run[i].sequence in pending && run[i].event == pending[run[i].sequence]
    {
      assert entries[i] in entries;
    }
  }

  /** Where an entry of the listing stands. */
  lemma PlaceInListing(pending: map<Sequence, Event>, n: nat, k: Sequence) returns (j: nat)
    requires k in pending && 1 <= k <= n
    ensures j < |Listing(pending, n)| && Listing(pending, n)[j] == Entry(k, pending[k])
    ensures forall i :: 0 <= i < j ==> Listing(pending, n)[i].sequence < k
    ensures forall i :: j < i < |Listing(pending, n)| ==> Listing(pending, n)[i].sequence > k
  {
    var entries := Listing(pending, n);
    ListingFacts(pending, n);
    assert Entry(k, pending[k]) in entries;
    j :| 0 <= j < |entries| && entries[j] == Entry(k, pending[k]);
    forall i | 0 <= i < j ensures entries[i].sequence < k {
      assert EntrySequence()(entries[i]) < EntrySequence()(entries[j]);
    }
    forall i | j < i < |entries| ensures entries[i].sequence > k {
      assert EntrySequence()(entries[j]) < EntrySequence()(entries[i]);
    }
  }

  lemma RunBlocked(pending: map<Sequence, Event>, n: nat, next: Sequence, k: Sequence)
    requires k in pending && 1 <= k <= n && k < next
    ensures TakeRun(Listing(pending, n), next) == []
  {
    var j := PlaceInListing(pending, n, k);
    RunShape(Listing(pending, n), next);
  }

  /** In a strictly increasing list that starts no earlier than next, the number a run stops at is missing. */
  lemma {:induction false} RunStopsAtGap(entries: seq<Entry>, next: Sequence)
    requires StrictlySortedBy(entries, EntrySequence())
    requires entries != [] ==> entries[0].sequence >= next
    ensures forall i :: 0 <= i < |entries| ==> entries[i].sequence != next + |TakeRun(entries, next)|
    decreases |entries|
  {
    if entries != [] {
      var rest := entries[1..];
      forall i | 0 < i < |entries| ensures entries[i].sequence > entries[0].sequence {
        assert EntrySequence()(entries[0]) < EntrySequence()(entries[i]);
      }
      if entries[0].sequence == next {
        forall i, j | 0 <= i < j < |rest| ensures EntrySequence()(rest[i]) < EntrySequence()(rest[j]) {
          assert EntrySequence()(entries[i + 1]) < EntrySequence()(entries[j + 1]);
        }
        RunStopsAtGap(rest, next + 1);
        forall i | 0 <= i < |entries| ensures entries[i].sequence != next + |TakeRun(entries, next)| {
          assert i > 0 ==> entries[i] == rest[i - 1];
        }
      }
    }
  }

  lemma RunMaximal(pending: map<Sequence, Event>, n: nat, next: Sequence)
    requires next >= 1 && forall k :: k in pending ==> next <= k <= n
    ensures next + |TakeRun(Listing(pending, n), next)| !in pending
  {
    var entries := Listing(pending, n);
    ListingFacts(pending, n);
    assert entries != [] ==> entries[0] in entries;
    assert forall k :: k in pending ==> Entry(k, pending[k]) in entries;
    RunStopsAtGap(entries, next);
    var gap := next + |TakeRun(entries, next)|;
    assert forall e :: e in entries ==> e.sequence != gap;
  }

  /** The run holds the pending events from next on, up to the first number that is not pending; it is
      empty exactly when next is not pending or something older than next still is. */
  lemma RunOfListing(pending: map<Sequence, Event>, n: nat, next: Sequence)
    requires next >= 1 && forall k :: k in pending ==> 1 <= k <= n
    ensures var run := TakeRun(Listing(pending, n), next);
            && PendingRun(run, pending, next)
            && ((forall k :: k in pending ==> k >= next) ==> next + |run| !in pending)
            && (run == [] <==> next !in pending || exists k :: k in pending && k < next)
  {
    RunIsPending(pending, n, next);
    if k :| k in pending && k < next {
      RunBlocked(pending, n, next, k);
    } else {
      RunMaximal(pending, n, next);
      assert TakeRun(Listing(pending, n), next) != [] ==>
          TakeRun(Listing(pending, n), next)[0].sequence == next;
    }
  }

  /** When exactly the events after `from` are pending, the listing is those events in log order. */
  lemma {:induction false} WholeListing(pending: map<Sequence, Event>, log: seq<Event>, from: Sequence, n: nat)
    requires from <= |log| && n <= |log|
    requires forall k :: k in pending <==> from < k <= |log|
    requires forall k :: k in pending ==> pending[k] == log[k - 1]
    ensures Listing(pending, n) == if n <= from then [] else EntriesFrom(from, log[from..n])
  {
    if n > 0 {
      WholeListing(pending, log, from, n - 1);
      if n > from {
        EntriesSnoc(from, log[from..n - 1], log[n - 1]);
        assert log[from..n] == log[from..n - 1] + [log[n - 1]];
      }
    }
  }

  lemma TakeAll(from: Sequence, events: seq<Event>)
    ensures TakeRun(EntriesFrom(from, events), from + 1) == EntriesFrom(from, events)
  {
    RunShape(EntriesFrom(from, events), from + 1);
  }

  function SequencesOf(entries: seq<Entry>): set<Sequence> {
    set i | 0 <= i < |entries| :: entries[i].sequence
  }
}
