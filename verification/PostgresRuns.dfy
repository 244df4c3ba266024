/** Where things in a state of a run come from: the decision behind a command, the step that drew a
    number, the moment a snapshot was current, the listing behind what the relay carries. */
module PostgresRuns {
  import opened Collections
  import opened ReadModel
  import opened Outbox
  import opened PostgresProtocol
  import opened PostgresInvariant
  import opened PostgresSteps

  function Last(run: seq<State>): State
    requires run != []
  {
    run[|run| - 1]
  }

  lemma OneMoreStep(run: seq<State>, step: Step)
    requires IsRun(run) && Shaped(Last(run)) && Enabled(Last(run), step)
    ensures IsRun(run + [After(Last(run), step)])
  {
    var run' := run + [After(Last(run), step)];
    forall i | 0 <= i < |run'| - 1 ensures StepAt(run', i) {
      if i < |run| - 1 {
        assert StepAt(run, i);
      }
    }
  }

  lemma StepOf(run: seq<State>, i: nat) returns (step: Step)
    requires IsRun(run) && i + 1 < |run|
    ensures Shaped(run[i]) && Enabled(run[i], step) && run[i + 1] == After(run[i], step)
    ensures Shaped(run[i + 1])
  {
    RunKeepsInv(run, i + 1);
    assert StepAt(run, i);
    step :| Enabled(run[i], step) && run[i + 1] == After(run[i], step);
  }

  /** What later states keep of an earlier one's rows. */
  lemma LogGrows(run: seq<State>, j: nat, i: nat)
    requires IsRun(run) && j <= i < |run|
    ensures Shaped(run[j]) && Shaped(run[i]) && WellFormed(run[i].log)
    ensures run[j].log <= run[i].log && run[j].owner <= run[i].owner
    ensures Current(run[j]).checkpoint <= Current(run[i]).checkpoint
    ensures Current(run[j]).checkpoint <= |run[j].log|
  {
    RunExtends(run, j, i);
    RunKeepsInv(run, j);
    LogWellFormed(run[i]);
    assert SnapshotOk(run[j], run[j].snapshots[|run[j].snapshots| - 1]);
  }

  lemma CommandGrows(run: seq<State>, j: nat, i: nat, k: nat)
    requires IsRun(run) && j <= i < |run| && k in run[j].commands
    ensures k in run[i].commands && run[i].commands[k].batch == run[j].commands[k].batch
    ensures |run[j].commands[k].sequences| <= |run[i].commands[k].sequences|
    ensures run[j].commands[k].phase == Committed || run[j].commands[k].phase == RolledBack ==>
      run[i].commands[k] == run[j].commands[k]
  {
    RunExtends(run, j, i);
    assert CommandExtends(run[j], run[i], k);
  }

  /** Every command was decided in an earlier state, and its batch is what was raised there. */
  ghost predicate Decided(run: seq<State>, d: nat, i: nat, k: nat, step: Step) {
    && d < i < |run| && Shaped(run[d]) && Shaped(run[i])
    && IsDecision(step) && step.k == k && Enabled(run[d], step) && run[d + 1] == After(run[d], step)
    && k in run[i].commands && Raised(run[d], step) == Some(run[i].commands[k].batch)
  }

  lemma {:induction false} DecidedAt(run: seq<State>, i: nat, k: nat) returns (d: nat, step: Step)
    requires IsRun(run) && i < |run| && k in run[i].commands
    ensures Decided(run, d, i, k, step)
  {
    assert i > 0;
    var last := StepOf(run, i - 1);
    if k in run[i - 1].commands {
      d, step := DecidedAt(run, i - 1, k);
      SameBatchNext(run[i - 1], last, k);
    } else {
      d, step := i - 1, last;
    }
  }

  lemma SameBatchNext(s: State, step: Step, k: nat)
    requires Shaped(s) && Enabled(s, step) && k in s.commands
    ensures k in After(s, step).commands && After(s, step).commands[k].batch == s.commands[k].batch
  {
  }

  /** Every row was inserted by a step that found the log just that long. */
  ghost predicate InsertedBy(run: seq<State>, j: nat, i: nat, n: nat, k: nat) {
    && j < i < |run| && Shaped(run[j]) && Shaped(run[j + 1]) && Shaped(run[i])
    && n == |run[j].log| < |run[i].log|
    && Enabled(run[j], Insert(k)) && run[j + 1] == After(run[j], Insert(k))
    && run[i].log[n] == run[j].commands[k].batch[|run[j].commands[k].sequences|]
    && run[i].owner[n] == k
  }

  lemma {:induction false} InsertedAt(run: seq<State>, i: nat, n: nat) returns (j: nat, k: nat)
    requires IsRun(run) && i < |run| && n < |run[i].log|
    ensures InsertedBy(run, j, i, n, k)
  {
    assert i > 0;
    var last := StepOf(run, i - 1);
    if n < |run[i - 1].log| {
      j, k := InsertedAt(run, i - 1, n);
      LogGrows(run, i - 1, i);
      assert run[i].log[n] == run[i - 1].log[n] && run[i].owner[n] == run[i - 1].owner[n];
    } else {
      j, k := i - 1, last.k;
    }
  }

  /** Every snapshot was current once. */
  lemma {:induction false} SnapshotSeen(run: seq<State>, i: nat, q: nat) returns (j: nat)
    requires IsRun(run) && i < |run| && q < |run[i].snapshots|
    ensures j <= i && Shaped(run[j]) && Current(run[j]) == run[i].snapshots[q]
  {
    if i == 0 {
      j := 0;
    } else {
      var last := StepOf(run, i - 1);
      if q < |run[i - 1].snapshots| {
        j := SnapshotSeen(run, i - 1, q);
        SnapshotsGrow(run[i - 1], last);
      } else {
        SnapshotsGrow(run[i - 1], last);
        j := i;
      }
    }
  }

  lemma SnapshotsGrow(s: State, step: Step)
    requires Shaped(s) && Enabled(s, step)
    ensures var s' := After(s, step);
            s.snapshots <= s'.snapshots && |s'.snapshots| <= |s.snapshots| + 1
  {
  }

  /** What the relay carries in state s is what it would drain in state u. */
  ghost predicate Carries(s: State, u: State) {
    && Shaped(s) && Shaped(u) && Current(s) == Current(u)
    && (s.relay.Listed? ==> s.relay.pending == Listing(PendingRows(u), |u.log|))
    && (s.relay.Planned? ==>
          s.relay.run == TakeRun(Listing(PendingRows(u), |u.log|), Current(u).checkpoint + 1))
  }

  lemma {:induction false} ListedAt(run: seq<State>, i: nat) returns (u: nat)
    requires IsRun(run) && i < |run| && (run[i].relay.Listed? || run[i].relay.Planned?)
    ensures u < i && Carries(run[i], run[u])
  {
    assert i > 0;
    var last := StepOf(run, i - 1);
    if last.RelayList? {
      u := i - 1;
    } else {
      CarriedOver(run[i - 1], last);
      u := ListedAt(run, i - 1);
      StillCarries(run[i - 1], last, run[u]);
    }
  }

  lemma CarriedOver(s: State, step: Step)
    requires Shaped(s) && Enabled(s, step) && !step.RelayList?
    requires After(s, step).relay.Listed? || After(s, step).relay.Planned?
    ensures s.relay.Listed? || s.relay.Planned?
    ensures After(s, step).snapshots == s.snapshots
    ensures After(s, step).relay == if step.RelayPlan? then Planned(TakeRun(s.relay.pending, Current(s).checkpoint + 1))
                                    else s.relay
    ensures step.RelayPlan? ==> s.relay.Listed?
  {
  }

  lemma StillCarries(s: State, step: Step, u: State)
    requires Shaped(s) && Enabled(s, step) && !step.RelayList? && Carries(s, u)
    requires After(s, step).relay.Listed? || After(s, step).relay.Planned?
    requires Shaped(After(s, step))
    ensures Carries(After(s, step), u)
  {
    CarriedOver(s, step);
  }
}
