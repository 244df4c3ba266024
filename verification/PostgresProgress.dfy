/** Which runs of the Postgres protocol leave an applied entry pending, and the progress of those that do
    not. */
module PostgresProgress {
  import opened Domain
  import opened PostgresTables
  import opened PostgresProtocol
  import opened PostgresInvariant
  import opened PostgresSteps
  import opened PostgresRuns
  import opened PostgresGuarantees

  /** The relay stops after state j with entries still to be marked done. */
  ghost predicate Interrupted(run: seq<State>, j: nat) {
    j + 1 < |run| && run[j].relay.Marking? && run[j].relay.rest != [] && run[j + 1].relay.Idle?
  }

  ghost predicate NeverInterrupted(run: seq<State>, i: nat) {
    forall j: nat :: j < i ==> !Interrupted(run, j)
  }

  /** What is applied and still pending is just what the relay is about to mark. */
  ghost predicate Clean(s: State)
    requires Shaped(s)
  {
    if s.relay.Marking? then
      && (forall n :: LeftPending(s, n) <==> n in s.relay.rest)
      && (forall i, j :: 0 <= i < j < |s.relay.rest| ==> s.relay.rest[i] < s.relay.rest[j])
    else
      forall n :: !LeftPending(s, n)
  }

  lemma CleanApply(s: State)
    requires Inv(s) && Clean(s) && Enabled(s, RelayApply)
    ensures Shaped(After(s, RelayApply)) && Clean(After(s, RelayApply))
  {
    PlannedApplies(s);
    var s', run := After(s, RelayApply), s.relay.run;
    assert SnapshotOk(s, s.snapshots[|s.snapshots| - 1]);
    assert |s'.relay.rest| == |run| && forall i :: 0 <= i < |run| ==> s'.relay.rest[i] == Current(s).checkpoint + i + 1;
    forall n: Sequence ensures LeftPending(s', n) <==> n in s'.relay.rest {
      assert !LeftPending(s, n);
      if Current(s).checkpoint < n <= Current(s).checkpoint + |run| {
        assert s'.relay.rest[n - Current(s).checkpoint - 1] == n;
      }
    }
  }

  lemma CleanMark(s: State)
    requires Shaped(s) && Clean(s) && Enabled(s, RelayMark)
    ensures Shaped(After(s, RelayMark)) && Clean(After(s, RelayMark))
  {
    var s', rest := After(s, RelayMark), s.relay.rest;
    if rest != [] {
      assert rest == [rest[0]] + rest[1..];
      forall n ensures LeftPending(s', n) <==> n in rest[1..] {
        assert LeftPending(s', n) <==> LeftPending(s, n) && n != rest[0];
      }
    } else {
      forall n ensures !LeftPending(s', n) {
        assert !LeftPending(s, n);
      }
    }
  }

  lemma CleanStep(s: State, step: Step)
    requires Inv(s) && Clean(s) && Enabled(s, step)
    requires !(s.relay.Marking? && s.relay.rest != [] && After(s, step).relay.Idle?)
    ensures Shaped(After(s, step)) && Clean(After(s, step))
  {
    if step.RelayApply? {
      CleanApply(s);
    } else if step.RelayMark? {
      CleanMark(s);
    } else {
      SameLeft(s, step);
    }
  }

  lemma SameLeft(s: State, step: Step)
    requires Inv(s) && Clean(s) && Enabled(s, step) && !step.RelayApply? && !step.RelayMark?
    requires !(s.relay.Marking? && s.relay.rest != [] && After(s, step).relay.Idle?)
    ensures Shaped(After(s, step)) && Clean(After(s, step))
  {
    var s' := After(s, step);
    assert s'.snapshots == s.snapshots && s'.done == s.done;
    assert |s'.owner| == |s'.log|;
    forall n ensures LeftPending(s', n) <==> LeftPending(s, n) {
    }
  }

  lemma {:induction false} CleanRun(run: seq<State>, i: nat)
    requires IsRun(run) && i < |run| && NeverInterrupted(run, i)
    ensures Shaped(run[i]) && Clean(run[i])
  {
    if i > 0 {
      CleanRun(run, i - 1);
      RunKeepsInv(run, i - 1);
      var step := StepOf(run, i - 1);
      assert !Interrupted(run, i - 1);
      CleanStep(run[i - 1], step);
    }
  }

  lemma {:induction false} FirstInterruption(run: seq<State>, j: nat) returns (first: nat)
    requires IsRun(run) && Interrupted(run, j)
    ensures first <= j && Interrupted(run, first) && NeverInterrupted(run, first)
    decreases j
  {
    if x: nat :| x < j && Interrupted(run, x) {
      first := FirstInterruption(run, x);
    } else {
      first := j;
    }
  }

  /** A stop while marking is the only way to leave an applied entry pending once the relay is not marking,
      and always leaves one. */
  lemma LeftPendingIffInterrupted(run: seq<State>, i: nat)
    requires IsRun(run) && i < |run| && !run[i].relay.Marking?
    ensures Shaped(run[i])
    ensures (exists n :: LeftPending(run[i], n)) <==> exists j: nat :: j < i && Interrupted(run, j)
  {
    RunKeepsInv(run, i);
    if j: nat :| j < i && Interrupted(run, j) {
      var first := FirstInterruption(run, j);
      InterruptionLeaves(run, first);
      LeftPendingStalls(run, first + 1, i, run[first].relay.rest[0]);
    } else {
      CleanRun(run, i);
    }
  }

  lemma InterruptionLeaves(run: seq<State>, j: nat)
    requires IsRun(run) && Interrupted(run, j) && NeverInterrupted(run, j)
    ensures Shaped(run[j + 1]) && LeftPending(run[j + 1], run[j].relay.rest[0])
  {
    CleanRun(run, j);
    var step := StepOf(run, j);
    assert run[j].relay.rest[0] in run[j].relay.rest;
    assert step.RelayStop?;
  }

  // Progress

  ghost predicate AllCommitted(s: State)
    requires Shaped(s)
  {
    forall n :: 1 <= n <= |s.log| ==> IsCommitted(s, n)
  }

  lemma {:induction false} CommittedIsAll(s: State, n: nat)
    requires Shaped(s) && n <= |s.log| && AllCommitted(s)
    ensures CommittedLog(s, n) == s.log[..n]
  {
    if n > 0 {
      CommittedIsAll(s, n - 1);
      assert IsCommitted(s, n);
    }
  }

  /** With everything committed and nothing left pending, a drain applies everything. */
  lemma DrainsAll(s: State)
    requires Inv(s) && AllCommitted(s) && Current(s).checkpoint < |s.log| && forall n :: !LeftPending(s, n)
    ensures Drainable(s) != [] && ApplyBatch(Current(s), Drainable(s)).Some?
    ensures ApplyBatch(Current(s), Drainable(s)).value.checkpoint == |s.log|
  {
    DrainNoOp(s);
    DrainAdvances(s);
    PlannedLength(s);
  }

  lemma PlannedLength(s: State)
    requires Inv(s) && Drainable(s) != []
    ensures Current(s).checkpoint + |Drainable(s)| <= |s.log|
  {
    DrainablePlanned(s);
  }

  /** No number was drawn by an append that rolled back. */
  ghost predicate NoGaps(s: State) {
    forall k :: k in s.commands && s.commands[k].phase == RolledBack ==> s.commands[k].sequences == []
  }

  lemma EverythingCommitted(s: State)
    requires Inv(s) && NoneOpen(s) && NoGaps(s)
    ensures AllCommitted(s)
  {
    forall n | 1 <= n <= |s.log| ensures IsCommitted(s, n) {
      assert RowOk(s, n - 1) && CommandOk(s, s.owner[n - 1]);
    }
  }

  /** In a run that was never stopped while marking, with no append rolled back after an insert and none
      open, an idle relay that has not applied everything applies everything in one drain. */
  lemma Progress(run: seq<State>, i: nat)
    requires IsRun(run) && i < |run| && run[i].relay.Idle? && NeverInterrupted(run, i)
    requires NoneOpen(run[i]) && NoGaps(run[i])
    ensures Shaped(run[i]) && Current(run[i]).checkpoint <= |run[i].log|
    ensures Current(run[i]).checkpoint < |run[i].log| ==>
      && Drainable(run[i]) != [] && ApplyBatch(Current(run[i]), Drainable(run[i])).Some?
      && ApplyBatch(Current(run[i]), Drainable(run[i])).value.checkpoint == |run[i].log|
  {
    RunKeepsInv(run, i);
    CurrentMatches(run[i]);
    EverythingCommitted(run[i]);
    CleanRun(run, i);
    if Current(run[i]).checkpoint < |run[i].log| {
      DrainsAll(run[i]);
    }
  }
}
