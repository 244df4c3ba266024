/** The relay's drain over the in-memory store and projection, with nobody else at work. */
module Relay {
  import opened Domain
  import opened ReadModel
  import opened Outbox
  import opened MemoryEventStore
  import opened MemoryProjection
  import opened MemoryRefinement

  /** One contiguous run, one Apply for all of it, and only then the entries marked done. A failing
      Apply leaves the outbox as it was. */
  method Drain(outbox: EventStore, projection: Projection) returns (ok: bool)
    requires outbox.Valid()
    modifies outbox`pending, projection
    ensures outbox.Valid()
    ensures var run := TakeRun(Listing(old(outbox.pending), |outbox.records|), old(projection.checkpoint) + 1);
            if run == [] then
              ok && outbox.pending == old(outbox.pending) && projection.Contents() == old(projection.Contents())
            else
              var applied := ApplyEntries(old(projection.Contents()), run);
              && ok == applied.ok
              && projection.Contents() == applied.state
              && outbox.pending == if ok then old(outbox.pending) - SequencesOf(run) else old(outbox.pending)
  {
    var pending := outbox.Pending();
    var run := ContiguousRun(pending, projection.checkpoint);
    if |run| == 0 {
      return true;
    }
    ok := projection.Apply(run);
    if !ok {
      return;
    }
    MarkAllDone(outbox, run);
  }

  /** The marking loop, one call an entry. */
  method MarkAllDone(outbox: EventStore, run: seq<Entry>)
    requires outbox.Valid()
    modifies outbox`pending
    ensures outbox.Valid() && outbox.pending == old(outbox.pending) - SequencesOf(run)
  {
    for i := 0 to |run|
      invariant outbox.Valid()
      invariant outbox.pending == old(outbox.pending) - SequencesOf(run[..i])
    {
      assert SequencesOf(run[..i + 1]) == SequencesOf(run[..i]) + {run[i].sequence};
      outbox.MarkDone(run[i].sequence);
    }
    assert run[..|run|] == run;
  }

  /** When exactly the events after the checkpoint are pending, the run is those events, to the end of the log. */
  lemma WholeRun(pending: map<Sequence, Event>, log: seq<Event>, checkpoint: Sequence)
    requires checkpoint <= |log|
    requires forall n :: n in pending <==> checkpoint < n <= |log|
    requires forall n :: n in pending ==> pending[n] == log[n - 1]
    ensures TakeRun(Listing(pending, |log|), checkpoint + 1) == EntriesFrom(checkpoint, log[checkpoint..])
  {
    WholeListing(pending, log, checkpoint, |log|);
    assert log[checkpoint..|log|] == log[checkpoint..];
    TakeAll(checkpoint, log[checkpoint..]);
  }

  /** So an uninterrupted drain brings a caught-up projection to the end of the log. */
  lemma DrainCatchesUp(pending: map<Sequence, Event>, log: seq<Event>, s: State)
    requires WellFormed(log) && s.checkpoint <= |log| && Matches(s, log[..s.checkpoint])
    requires forall n :: n in pending <==> s.checkpoint < n <= |log|
    requires forall n :: n in pending ==> pending[n] == log[n - 1]
    ensures var applied := ApplyEntries(s, TakeRun(Listing(pending, |log|), s.checkpoint + 1));
            applied.ok && applied.state.checkpoint == |log| && Matches(applied.state, log)
  {
    WholeRun(pending, log, s.checkpoint);
    RestFollows(s, log);
  }

  lemma RestFollows(s: State, log: seq<Event>)
    requires WellFormed(log) && s.checkpoint <= |log| && Matches(s, log[..s.checkpoint])
    ensures var applied := ApplyEntries(s, EntriesFrom(s.checkpoint, log[s.checkpoint..]));
            applied.ok && applied.state.checkpoint == |log| && Matches(applied.state, log)
  {
    var front, back := log[..s.checkpoint], log[s.checkpoint..];
    assert front + back == log;
    RunFollows(s, front, back);
  }

  /** And it empties the outbox. */
  lemma DrainEmpties(pending: map<Sequence, Event>, log: seq<Event>, checkpoint: Sequence)
    requires checkpoint <= |log|
    requires forall n :: n in pending <==> checkpoint < n <= |log|
    requires forall n :: n in pending ==> pending[n] == log[n - 1]
    ensures pending - SequencesOf(TakeRun(Listing(pending, |log|), checkpoint + 1)) == map[]
  {
    WholeRun(pending, log, checkpoint);
    var run := EntriesFrom(checkpoint, log[checkpoint..]);
    forall n | n in pending ensures n in SequencesOf(run) {
      assert run[n - checkpoint - 1].sequence == n;
    }
  }
}
