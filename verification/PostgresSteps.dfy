/** Every step of the Postgres protocol keeps the invariant and only adds to what was there. */
module PostgresSteps {
  import opened Collections
  import opened Domain
  import opened ReadModel
  import opened Outbox
  import opened PostgresTables
  import opened PostgresRefinement
  import opened PostgresProtocol
  import opened PostgresInvariant
  import Aggregate
  import MemoryRefinement

  // What a step may add

  ghost predicate CommandExtends(s: State, s': State, k: nat)
    requires Shaped(s) && Shaped(s') && k in s.commands
  {
    && k in s'.commands
    && var c, c' := s.commands[k], s'.commands[k];
    && c'.batch == c.batch && c.sequences <= c'.sequences
    && (forall j :: |c.sequences| <= j < |c'.sequences| ==> c'.sequences[j] > |s.log|)
    && (c.phase == Committed ==> c' == c)
    && (c.phase == RolledBack ==> c' == c)
  }

  /** Rows, commands, snapshots and done marks are only added; a closed command never changes. */
  ghost predicate Extends(s: State, s': State) {
    && Shaped(s) && Shaped(s')
    && s.log <= s'.log && s.owner <= s'.owner && s.snapshots <= s'.snapshots
    && s.done <= s'.done && s.used <= s'.used
    && Current(s).checkpoint <= Current(s').checkpoint
    && (forall k :: k in s.commands ==> CommandExtends(s, s', k))
  }

  lemma StaysCommitted(s: State, s': State, n: Sequence)
    requires Extends(s, s') && IsCommitted(s, n)
    ensures IsCommitted(s', n)
  {
    assert CommandExtends(s, s', s.owner[n - 1]);
  }

  lemma ExtendsTransitive(s: State, s': State, s'': State)
    requires Extends(s, s') && Extends(s', s'')
    ensures Extends(s, s'')
  {
    forall k | k in s.commands ensures CommandExtends(s, s'', k) {
      assert CommandExtends(s, s', k) && CommandExtends(s', s'', k);
    }
  }

  lemma StaysJustified(s: State, s': State, k: nat, i: nat)
    requires Extends(s, s') && k in s.commands && i < |s.commands[k].batch| && Justified(s, k, i)
    ensures CommandExtends(s, s', k) && Justified(s', k, i)
  {
    assert CommandExtends(s, s', k);
    var batch := s.commands[k].batch;
    if m: nat :| RestsOn(s, k, batch[i], m) {
      StaysCommitted(s, s', m + 1);
      assert RestsOn(s', k, batch[i], m);
    }
  }

  lemma SnapshotStays(s: State, s': State, q: Tables)
    requires Extends(s, s') && SnapshotOk(s, q) && Current(s').checkpoint <= |s'.log|
    ensures SnapshotOk(s', q)
  {
    assert s'.log[..q.checkpoint] == s.log[..q.checkpoint];
  }

  /** The projection and the relay, when a step leaves them alone. */
  lemma ReadSideStays(s: State, s': State)
    requires Extends(s, s') && ProjectionOk(s) && RelayOk(s)
    requires s'.snapshots == s.snapshots && s'.done == s.done && s'.relay == s.relay
    ensures ProjectionOk(s') && RelayOk(s')
  {
    forall i | 0 <= i < |s.snapshots| ensures SnapshotOk(s', s.snapshots[i]) {
      assert SnapshotOk(s, s.snapshots[|s.snapshots| - 1]);
      SnapshotStays(s, s', s.snapshots[i]);
    }
    forall n | 1 <= n <= Current(s).checkpoint ensures IsCommitted(s', n) {
      StaysCommitted(s, s', n);
    }
    RelayStays(s, s');
  }

  lemma RelayStays(s: State, s': State)
    requires Extends(s, s') && RelayOk(s)
    requires s'.snapshots == s.snapshots && s'.relay == s.relay
    ensures RelayOk(s')
  {
    match s.relay {
      case Listed(pending) =>
        forall i | 0 <= i < |pending|
          ensures IsCommitted(s', pending[i].sequence) && pending[i].event == s'.log[pending[i].sequence - 1]
        {
          StaysCommitted(s, s', pending[i].sequence);
        }
      case Planned(run) =>
        var checkpoint := Current(s).checkpoint;
        assert s'.log[checkpoint..checkpoint + |run|] == s.log[checkpoint..checkpoint + |run|];
        forall n | checkpoint < n <= checkpoint + |run| ensures IsCommitted(s', n) {
          StaysCommitted(s, s', n);
        }
      case _ =>
    }
  }

  lemma GroundsStay(s: State, s': State)
    requires Extends(s, s') && Grounds(s)
    requires forall k :: k in s'.commands ==> k in s.commands
    ensures Grounds(s')
  {
    forall k, i | k in s'.commands && 0 <= i < |s'.commands[k].batch|
      ensures Justified(s', k, i)
    {
      assert CommandExtends(s, s', k);
      StaysJustified(s, s', k, i);
    }
  }

  lemma IdsStay(s: State, s': State)
    requires DistinctIds(s) && s.used <= s'.used
    requires s'.commands.Keys == s.commands.Keys
    requires forall k :: k in s.commands ==> s'.commands[k].batch == s.commands[k].batch
    ensures DistinctIds(s')
  {
    forall k, i | k in s'.commands && 0 <= i < |s'.commands[k].batch|
      ensures NewIdsUsed(s'.commands[k].batch[i], s'.used)
    {
      assert NewIdsUsed(s.commands[k].batch[i], s.used);
    }
    forall k, i, l, j |
      && k in s'.commands && 0 <= i < |s'.commands[k].batch|
      && l in s'.commands && 0 <= j < |s'.commands[l].batch|
      && (k != l || i != j)
      ensures !Clash(s'.commands[k].batch[i], s'.commands[l].batch[j])
    {
      assert !Clash(s.commands[k].batch[i], s.commands[l].batch[j]);
    }
  }

  // Inserting and closing

  lemma OtherCommandOk(s: State, k: nat, l: nat)
    requires Inv(s) && Enabled(s, Insert(k)) && l in s.commands && l != k
    ensures CommandExtends(s, After(s, Insert(k)), l) && CommandOk(After(s, Insert(k)), l)
  {
    assert CommandOk(s, l);
  }

  lemma InsertingCommandOk(s: State, k: nat)
    requires Inv(s) && Enabled(s, Insert(k))
    ensures CommandExtends(s, After(s, Insert(k)), k) && CommandOk(After(s, Insert(k)), k)
  {
    var s', c := After(s, Insert(k)), s.commands[k];
    var c' := s'.commands[k];
    assert CommandOk(s, k);
    forall i | 0 <= i < |c'.sequences|
      ensures 1 <= c'.sequences[i] <= |s'.log|
      ensures s'.owner[c'.sequences[i] - 1] == k && s'.log[c'.sequences[i] - 1] == c'.batch[i]
    {
      if i < |c.sequences| {
        assert c'.sequences[i] == c.sequences[i];
      }
    }
    forall i, j | 0 <= i < j < |c'.sequences| ensures c'.sequences[i] < c'.sequences[j] {
      assert c'.sequences[i] == c.sequences[i];
    }
  }

  lemma InsertCommandOk(s: State, k: nat, l: nat)
    requires Inv(s) && Enabled(s, Insert(k)) && l in s.commands
    ensures CommandExtends(s, After(s, Insert(k)), l) && CommandOk(After(s, Insert(k)), l)
  {
    if l == k {
      InsertingCommandOk(s, k);
    } else {
      OtherCommandOk(s, k, l);
    }
  }

  lemma InsertRowOk(s: State, k: nat, n: nat)
    requires Inv(s) && Enabled(s, Insert(k)) && n <= |s.log|
    ensures RowOk(After(s, Insert(k)), n)
  {
    var s' := After(s, Insert(k));
    if n < |s.log| {
      assert RowOk(s, n);
      InsertCommandOk(s, k, s.owner[n]);
    } else {
      assert s'.commands[k].sequences[|s.commands[k].sequences|] == n + 1;
    }
  }

  lemma InsertLedger(s: State, k: nat)
    requires Inv(s) && Enabled(s, Insert(k))
    ensures Ledger(After(s, Insert(k)))
  {
    forall l | l in After(s, Insert(k)).commands ensures CommandOk(After(s, Insert(k)), l) {
      InsertCommandOk(s, k, l);
    }
    forall n | 0 <= n <= |s.log| ensures RowOk(After(s, Insert(k)), n) {
      InsertRowOk(s, k, n);
    }
  }

  lemma InsertExtends(s: State, k: nat)
    requires Inv(s) && Enabled(s, Insert(k))
    ensures Extends(s, After(s, Insert(k)))
  {
    forall l | l in s.commands ensures CommandExtends(s, After(s, Insert(k)), l) {
      InsertCommandOk(s, k, l);
    }
  }

  lemma CloseCommandOk(s: State, step: Step, l: nat)
    requires step.Commit? || step.Rollback?
    requires Inv(s) && Enabled(s, step) && l in s.commands
    ensures CommandExtends(s, After(s, step), l) && CommandOk(After(s, step), l)
  {
    OnlyCloses(s, step);
    assert CommandOk(s, l);
    var c, c' := s.commands[l], After(s, step).commands[l];
    assert c'.batch == c.batch && c'.sequences == c.sequences;
    SameRowsOk(s, After(s, step), l);
  }

  /** A command's rows are as they were when neither they nor the log change. */
  lemma SameRowsOk(s: State, s': State, l: nat)
    requires Shaped(s) && Shaped(s') && l in s.commands && l in s'.commands && CommandOk(s, l)
    requires s'.log == s.log && s'.owner == s.owner
    requires s'.commands[l] == s.commands[l].(phase := s'.commands[l].phase)
    requires s'.commands[l].phase == Ready ==> s.commands[l].phase == Ready
    requires s'.commands[l].phase == Committed ==> |s.commands[l].sequences| == |s.commands[l].batch|
    ensures CommandOk(s', l)
  {
  }

  lemma CloseLedger(s: State, step: Step)
    requires step.Commit? || step.Rollback?
    requires Inv(s) && Enabled(s, step)
    ensures Ledger(After(s, step))
  {
    OnlyCloses(s, step);
    forall l | l in s.commands ensures CommandOk(After(s, step), l) {
      CloseCommandOk(s, step, l);
    }
    CloseRowsOk(s, step);
  }

  lemma CloseExtends(s: State, step: Step)
    requires step.Commit? || step.Rollback?
    requires Inv(s) && Enabled(s, step)
    ensures Extends(s, After(s, step))
  {
    OnlyCloses(s, step);
    forall l | l in s.commands ensures CommandExtends(s, After(s, step), l) {
      CloseCommandOk(s, step, l);
    }
  }

  lemma OnlyCloses(s: State, step: Step)
    requires step.Commit? || step.Rollback?
    requires Shaped(s) && Enabled(s, step)
    ensures After(s, step) == s.(commands := After(s, step).commands)
    ensures After(s, step).commands.Keys == s.commands.Keys
  {
  }

  lemma CloseRowsOk(s: State, step: Step)
    requires step.Commit? || step.Rollback?
    requires Inv(s) && Enabled(s, step)
    ensures forall n :: 0 <= n < |s.log| ==> RowOk(After(s, step), n)
  {
    forall n | 0 <= n < |s.log| ensures RowOk(After(s, step), n) {
      assert RowOk(s, n);
    }
  }

  lemma WriteSideStep(s: State, s': State)
    requires Inv(s) && Extends(s, s') && Ledger(s')
    requires s'.commands.Keys == s.commands.Keys
    requires s'.snapshots == s.snapshots && s'.done == s.done && s'.relay == s.relay
    ensures Inv(s')
  {
    assert forall k :: k in s.commands ==> CommandExtends(s, s', k);
    IdsStay(s, s');
    GroundsStay(s, s');
    ReadSideStays(s, s');
  }

  // The relay

  /** A relay step that touches neither commands nor tables. */
  lemma RelayOnly(s: State, s': State)
    requires Inv(s) && s' == s.(relay := s'.relay, done := s'.done)
    requires s.done <= s'.done
    requires forall n :: n in s'.done ==> 1 <= n <= Current(s).checkpoint
    ensures Extends(s, s') && Shaped(s') && Ledger(s') && DistinctIds(s') && Grounds(s') && ProjectionOk(s')
  {
    forall l | l in s.commands ensures CommandExtends(s, s', l) && CommandOk(s', l) {
      assert CommandOk(s, l);
    }
    forall n | 0 <= n < |s'.log| ensures RowOk(s', n) {
      assert RowOk(s, n);
    }
    assert Extends(s, s');
    IdsStay(s, s');
    GroundsStay(s, s');
    forall i | 0 <= i < |s.snapshots| ensures SnapshotOk(s', s.snapshots[i]) {
      assert SnapshotOk(s, s.snapshots[i]);
    }
    forall n | 1 <= n <= Current(s).checkpoint ensures IsCommitted(s', n) {
      StaysCommitted(s, s', n);
    }
  }

  lemma ListStep(s: State)
    requires Inv(s) && Enabled(s, RelayList)
    ensures Inv(After(s, RelayList)) && Extends(s, After(s, RelayList))
  {
    var s' := After(s, RelayList);
    RelayOnly(s, s');
    ListingFacts(PendingRows(s), |s.log|);
    forall i | 0 <= i < |s'.relay.pending|
      ensures && IsCommitted(s', s'.relay.pending[i].sequence)
              && s'.relay.pending[i].event == s'.log[s'.relay.pending[i].sequence - 1]
    {
      assert s'.relay.pending[i] in s'.relay.pending;
      StaysCommitted(s, s', s'.relay.pending[i].sequence);
    }
  }

  lemma TakenEntry(s: State, i: nat)
    requires Inv(s) && s.relay.Listed?
    requires i < |TakeRun(s.relay.pending, Current(s).checkpoint + 1)|
    ensures var n := Current(s).checkpoint + i + 1;
            IsCommitted(s, n) && TakeRun(s.relay.pending, Current(s).checkpoint + 1)[i] == Entry(n, s.log[n - 1])
  {
    var pending, checkpoint := s.relay.pending, Current(s).checkpoint;
    var run := TakeRun(pending, checkpoint + 1);
    RunShape(pending, checkpoint + 1);
    assert run[i] == pending[i];
    assert IsCommitted(s, pending[i].sequence);
  }

  lemma PlannedRun(s: State)
    requires Inv(s) && s.relay.Listed?
    requires TakeRun(s.relay.pending, Current(s).checkpoint + 1) != []
    ensures RelayOk(s.(relay := Planned(TakeRun(s.relay.pending, Current(s).checkpoint + 1))))
  {
    var checkpoint := Current(s).checkpoint;
    var run := TakeRun(s.relay.pending, checkpoint + 1);
    var s' := s.(relay := Planned(run));
    TakenEntry(s, |run| - 1);
    forall n | checkpoint < n <= checkpoint + |run| ensures IsCommitted(s', n) {
      TakenEntry(s, n - checkpoint - 1);
    }
    var planned := EntriesFrom(checkpoint, s.log[checkpoint..checkpoint + |run|]);
    forall i | 0 <= i < |run| ensures run[i] == planned[i] {
      TakenEntry(s, i);
    }
    assert run == planned;
  }

  lemma PlanStep(s: State)
    requires Inv(s) && Enabled(s, RelayPlan)
    ensures Inv(After(s, RelayPlan)) && Extends(s, After(s, RelayPlan))
  {
    RelayOnly(s, After(s, RelayPlan));
    if TakeRun(s.relay.pending, Current(s).checkpoint + 1) != [] {
      PlannedRun(s);
    }
  }

  /** The planned batch commits: no key or reference of the schema is violated. */
  lemma PlannedApplies(s: State)
    requires Inv(s) && s.relay.Planned?
    ensures var checkpoint, run := Current(s).checkpoint, s.relay.run;
            && checkpoint + |run| <= |s.log|
            && ApplyBatch(Current(s), run).Some?
            && ApplyBatch(Current(s), run).value.checkpoint == checkpoint + |run|
            && TablesMatch(ApplyBatch(Current(s), run).value, s.log[..checkpoint + |run|])
  {
    LogWellFormed(s);
    assert SnapshotOk(s, s.snapshots[|s.snapshots| - 1]);
    NextRunApplies(Current(s), s.log, Current(s).checkpoint, |s.relay.run|);
  }

  lemma ApplyStep(s: State)
    requires Inv(s) && Enabled(s, RelayApply)
    ensures Inv(After(s, RelayApply)) && Extends(s, After(s, RelayApply))
  {
    PlannedApplies(s);
    var s' := After(s, RelayApply);
    AppliedExtends(s, s');
    AppliedProjection(s);
  }

  lemma AppliedSnapshots(s: State)
    requires Inv(s) && Enabled(s, RelayApply) && Extends(s, After(s, RelayApply))
    ensures var s' := After(s, RelayApply);
            forall i :: 0 <= i < |s'.snapshots| ==> SnapshotOk(s', s'.snapshots[i])
  {
    PlannedApplies(s);
    var s' := After(s, RelayApply);
    assert Current(s').checkpoint == Current(s).checkpoint + |s.relay.run| <= |s'.log|;
    forall i | 0 <= i < |s'.snapshots| ensures SnapshotOk(s', s'.snapshots[i]) {
      if i < |s.snapshots| {
        assert SnapshotOk(s, s.snapshots[i]);
        SnapshotStays(s, s', s.snapshots[i]);
      }
    }
  }

  lemma AppliedCommitted(s: State)
    requires Inv(s) && Enabled(s, RelayApply) && Extends(s, After(s, RelayApply))
    ensures var s' := After(s, RelayApply);
            && Current(s').checkpoint == Current(s).checkpoint + |s.relay.run|
            && forall n :: 1 <= n <= Current(s').checkpoint ==> IsCommitted(s', n)
  {
    PlannedApplies(s);
    forall n | 1 <= n <= Current(s).checkpoint + |s.relay.run| ensures IsCommitted(After(s, RelayApply), n) {
      StaysCommitted(s, After(s, RelayApply), n);
    }
  }

  lemma AppliedProjection(s: State)
    requires Inv(s) && Enabled(s, RelayApply) && Extends(s, After(s, RelayApply))
    ensures ProjectionOk(After(s, RelayApply)) && RelayOk(After(s, RelayApply))
  {
    PlannedApplies(s);
    AppliedSnapshots(s);
    AppliedCommitted(s);
  }

  lemma AppliedExtends(s: State, s': State)
    requires Inv(s) && s' == s.(snapshots := s'.snapshots, relay := s'.relay)
    requires s.snapshots <= s'.snapshots && Current(s).checkpoint <= Current(s').checkpoint
    ensures Extends(s, s') && Ledger(s') && DistinctIds(s') && Grounds(s')
  {
    forall l | l in s.commands ensures CommandExtends(s, s', l) && CommandOk(s', l) {
      assert CommandOk(s, l);
    }
    forall n | 0 <= n < |s'.log| ensures RowOk(s', n) {
      assert RowOk(s, n);
    }
    assert Extends(s, s');
    IdsStay(s, s');
    GroundsStay(s, s');
  }

  // Decisions

  lemma DecidedBatchWhole(s: State, step: Step)
    requires IsDecision(step) && Shaped(s) && Raised(s, step).Some?
    ensures Raised(s, step).value != [] && WholeBatch(Raised(s, step).value)
  {
  }

  lemma DecisionExtends(s: State, step: Step)
    requires IsDecision(step) && Inv(s) && Enabled(s, step)
    ensures Extends(s, After(s, step)) && Ledger(After(s, step))
    ensures ProjectionOk(After(s, step)) && RelayOk(After(s, step))
  {
    var s' := After(s, step);
    DecidedBatchWhole(s, step);
    forall l | l in s'.commands ensures (l in s.commands ==> CommandExtends(s, s', l)) && CommandOk(s', l) {
      assert l in s.commands ==> CommandOk(s, l);
    }
    forall n | 0 <= n < |s'.log| ensures RowOk(s', n) {
      assert RowOk(s, n);
    }
    assert Extends(s, s');
    ReadSideStays(s, s');
  }

  /** A fresh batch starts at most one conversation and one thread, both with ids never drawn before. */
  lemma FreshBatch(s: State, step: Step)
    requires IsDecision(step) && Shaped(s) && Raised(s, step).Some?
    ensures forall i :: 0 <= i < |Raised(s, step).value| ==> NewIdsUsed(Raised(s, step).value[i], Drawn(step))
    ensures forall i, j :: 0 <= i < |Raised(s, step).value| && 0 <= j < |Raised(s, step).value| && i != j ==>
              !Clash(Raised(s, step).value[i], Raised(s, step).value[j])
  {
  }

  lemma DecisionIds(s: State, step: Step)
    requires IsDecision(step) && Inv(s) && Enabled(s, step)
    ensures DistinctIds(After(s, step))
  {
    var s' := After(s, step);
    FreshBatch(s, step);
    forall k, i | k in s'.commands && 0 <= i < |s'.commands[k].batch|
      ensures NewIdsUsed(s'.commands[k].batch[i], s'.used)
    {
      if k in s.commands {
        assert NewIdsUsed(s.commands[k].batch[i], s.used);
      }
    }
    forall k, i, l, j |
      && k in s'.commands && 0 <= i < |s'.commands[k].batch|
      && l in s'.commands && 0 <= j < |s'.commands[l].batch|
      && (k != l || i != j)
      ensures !Clash(s'.commands[k].batch[i], s'.commands[l].batch[j])
    {
      if k in s.commands && l in s.commands {
        assert !Clash(s.commands[k].batch[i], s.commands[l].batch[j]);
      } else if k in s.commands {
        assert NewIdsUsed(s.commands[k].batch[i], s.used);
      } else if l in s.commands {
        assert NewIdsUsed(s.commands[l].batch[j], s.used);
      }
    }
  }

  /** Something a snapshot showed was committed below the checkpoint. */
  lemma SnapshotCommitted(s: State, q: nat, m: nat)
    requires Inv(s) && q < |s.snapshots| && m < s.snapshots[q].checkpoint
    ensures m < |s.log| && IsCommitted(s, m + 1)
  {
    assert SnapshotOk(s, s.snapshots[q]);
  }

  lemma AddThreadRests(s: State, seen: nat, c: ConversationId) returns (m: nat)
    requires Inv(s) && seen < |s.snapshots| && ExistsRow(s.snapshots[seen], c)
    ensures m < |s.log| && IsCommitted(s, m + 1) && s.log[m].ConversationCreated? && s.log[m].conversation == c
  {
    var q := s.snapshots[seen];
    assert SnapshotOk(s, q);
    var log := s.log[..q.checkpoint];
    LogWellFormed(s);
    WellFormedPrefix(s.log, q.checkpoint);
    ExistsMatches(q, log, c);
    MemoryRefinement.StartedInView(log, c);
    m :| 0 <= m < |log| && log[m].ConversationCreated? && log[m].conversation == c;
    SnapshotCommitted(s, seen, m);
  }

  /** An authorised reply names a thread started, and an author admitted, by the checkpoint at which its
      thread rows were read. */
  lemma ReplyRests(s: State, reply: Event, row: nat, rows: nat, posts: nat) returns (m: nat)
    requires Inv(s) && row < |s.snapshots| && rows < |s.snapshots| && posts < |s.snapshots|
    requires reply.MessagePosted?
    requires TornRead(s, reply.conversation, row, rows, posts).Success?
    requires AuthorizeReply(TornRead(s, reply.conversation, row, rows, posts).value, reply) == None
    ensures m < |s.log| && IsCommitted(s, m + 1) && Starts(s.log[m], reply.conversation, reply.thread)
    ensures s.snapshots[rows].checkpoint <= Current(s).checkpoint <= |s.log|
    ensures reply.author in Participants(s.log[..s.snapshots[rows].checkpoint], reply.conversation, reply.thread)
  {
    var c, q := reply.conversation, s.snapshots[rows];
    assert SnapshotOk(s, s.snapshots[row]) && SnapshotOk(s, q) && SnapshotOk(s, s.snapshots[posts]);
    LogWellFormed(s);
    TornGet(s.log, c, s.snapshots[row].checkpoint, q.checkpoint, s.snapshots[posts].checkpoint,
            s.snapshots[row], q, s.snapshots[posts]);
    var view := TornRead(s, c, row, rows, posts).value;
    var i := FindThread(view.threads, reply.thread);
    var log := s.log[..q.checkpoint];
    m := StartsOf(log, c)[i];
    assert view.threads[i].participants == Threads(log, c)[i].participants;
    SnapshotCommitted(s, rows, m);
  }

  /** A thread the rehydrated aggregate knows was started by a committed row, and the aggregate's id is
      the conversation asked for. */
  lemma ManageRests(s: State, c: ConversationId, t: ThreadId) returns (m: nat)
    requires Inv(s) && t in Rehydrated(s, c).threads
    ensures Rehydrated(s, c).id == c
    ensures m < |s.log| && IsCommitted(s, m + 1) && Starts(s.log[m], c, t)
  {
    var log := CommittedLog(s, |s.log|);
    CommittedLogWellFormed(s, |s.log|);
    Aggregate.ReplayHolds(log, c, t);
    StartedIsCreated(log, c, t);
    var j :| 0 <= j < |log| && Starts(log[j], c, t);
    assert log[j] in log;
    CommittedFrom(s, |s.log|, log[j]);
    m :| 0 <= m < |s.log| && IsCommitted(s, m + 1) && s.log[m] == log[j];
  }

  /** A batch that begins with a thread's start carries what its other events need. */
  lemma OpeningGrounds(s: State, k: nat, i: nat)
    requires Shaped(s) && k in s.commands
    requires var batch := s.commands[k].batch; 1 <= i < |batch| && Opens(batch[i - 1], batch[i])
    ensures Justified(s, k, i)
  {
    assert Needs(s.commands[k].batch[i], s.commands[k].batch[i - 1]);
  }

  lemma CreationGrounds(s: State, k: nat)
    requires Shaped(s) && k in s.commands
    requires var batch := s.commands[k].batch;
             |batch| >= 2 && batch[0].ConversationCreated? && batch[1].ThreadStarted?
             && batch[1].conversation == batch[0].conversation
    ensures Justified(s, k, 0) && Justified(s, k, 1)
  {
    assert Needs(s.commands[k].batch[1], s.commands[k].batch[0]);
  }

  /** An event with nothing numbered yet may rest on any committed row. */
  lemma CommittedGrounds(s: State, s': State, k: nat, i: nat, m: nat)
    requires Extends(s, s') && k in s'.commands && s'.commands[k].sequences == []
    requires i < |s'.commands[k].batch| && m < |s.log| && IsCommitted(s, m + 1)
    requires Needs(s'.commands[k].batch[i], s.log[m])
    ensures Justified(s', k, i)
  {
    StaysCommitted(s, s', m + 1);
    assert RestsOn(s', k, s'.commands[k].batch[i], m);
  }

  lemma ReplyGrounds(s: State, step: Step)
    requires step.Reply? && Inv(s) && Enabled(s, step) && Extends(s, After(s, step))
    ensures Justified(After(s, step), step.k, 0)
  {
    var s', reply := After(s, step), Raised(s, step).value[0];
    var m := ReplyRests(s, reply, step.row, step.rows, step.posts);
    CommittedGrounds(s, s', step.k, 0, m);
  }

  lemma DecisionGrounds(s: State, step: Step, i: nat)
    requires IsDecision(step) && Inv(s) && Enabled(s, step) && Extends(s, After(s, step))
    requires i < |Raised(s, step).value|
    ensures Justified(After(s, step), step.k, i)
  {
    var s', k := After(s, step), step.k;
    match step {
      case StartConversation(_, _, _) =>
        if i < 2 {
          CreationGrounds(s', k);
        } else {
          OpeningGrounds(s', k, i);
        }
      case AddThread(_, p, seen) =>
        if i == 0 {
          var m := AddThreadRests(s, seen, p.conversation);
          CommittedGrounds(s, s', k, i, m);
        } else {
          OpeningGrounds(s', k, i);
        }
      case Reply(_, _, _, _, _) => ReplyGrounds(s, step);
      case AddParticipant(_, p) =>
        var m := ManageRests(s, p.conversation, p.thread);
        CommittedGrounds(s, s', k, i, m);
      case RemoveParticipant(_, p) =>
        var m := ManageRests(s, p.conversation, p.thread);
        CommittedGrounds(s, s', k, i, m);
    }
  }

  lemma DecisionStep(s: State, step: Step)
    requires IsDecision(step) && Inv(s) && Enabled(s, step)
    ensures Inv(After(s, step)) && Extends(s, After(s, step))
  {
    var s' := After(s, step);
    DecisionExtends(s, step);
    DecisionIds(s, step);
    forall k, i | k in s'.commands && 0 <= i < |s'.commands[k].batch|
      ensures Justified(s', k, i)
    {
      if k in s.commands {
        assert CommandExtends(s, s', k);
        StaysJustified(s, s', k, i);
      } else {
        DecisionGrounds(s, step, i);
      }
    }
  }

  // Every step, every run

  lemma InsertStep(s: State, k: nat)
    requires Inv(s) && Enabled(s, Insert(k))
    ensures Inv(After(s, Insert(k))) && Extends(s, After(s, Insert(k)))
  {
    InsertLedger(s, k);
    InsertExtends(s, k);
    WriteSideStep(s, After(s, Insert(k)));
  }

  lemma CloseStep(s: State, step: Step)
    requires step.Commit? || step.Rollback?
    requires Inv(s) && Enabled(s, step)
    ensures Inv(After(s, step)) && Extends(s, After(s, step))
  {
    OnlyCloses(s, step);
    CloseLedger(s, step);
    CloseExtends(s, step);
    WriteSideStep(s, After(s, step));
  }

  lemma MarkStep(s: State, step: Step)
    requires step.RelayMark? || step.RelayStop?
    requires Inv(s) && Enabled(s, step)
    ensures Inv(After(s, step)) && Extends(s, After(s, step))
  {
    RelayOnly(s, After(s, step));
  }

  lemma StepKeepsInv(s: State, step: Step)
    requires Inv(s) && Enabled(s, step)
    ensures Inv(After(s, step)) && Extends(s, After(s, step))
  {
    match step {
      case Insert(k) => InsertStep(s, k);
      case Commit(_) => CloseStep(s, step);
      case Rollback(_) => CloseStep(s, step);
      case RelayList => ListStep(s);
      case RelayPlan => PlanStep(s);
      case RelayApply => ApplyStep(s);
      case RelayMark => MarkStep(s, step);
      case RelayStop => MarkStep(s, step);
      case _ => DecisionStep(s, step);
    }
  }

  lemma NextKeepsInv(s: State, s': State)
    requires Inv(s) && Next(s, s')
    ensures Inv(s') && Extends(s, s')
  {
    var step :| Enabled(s, step) && s' == After(s, step);
    StepKeepsInv(s, step);
  }

  lemma InitialInv()
    ensures Inv(INITIAL)
  {
    EmptyTablesMatch();
    assert INITIAL.log[..0] == [];
    assert SnapshotOk(INITIAL, EMPTY_TABLES);
  }

  lemma {:induction false} RunKeepsInv(run: seq<State>, i: nat)
    requires IsRun(run) && i < |run|
    ensures Inv(run[i])
  {
    if i == 0 {
      InitialInv();
    } else {
      RunKeepsInv(run, i - 1);
      assert StepAt(run, i - 1);
      NextKeepsInv(run[i - 1], run[i]);
    }
  }

  lemma ExtendsItself(s: State)
    requires Shaped(s)
    ensures Extends(s, s)
  {
    assert forall k :: k in s.commands ==> CommandExtends(s, s, k);
  }

  lemma {:induction false} RunExtends(run: seq<State>, i: nat, j: nat)
    requires IsRun(run) && i <= j < |run|
    ensures Inv(run[j]) && Extends(run[i], run[j])
    decreases j - i
  {
    if i == j {
      RunKeepsInv(run, i);
      ExtendsItself(run[i]);
    } else {
      RunExtends(run, i, j - 1);
      assert StepAt(run, j - 1);
      NextKeepsInv(run[j - 1], run[j]);
      ExtendsTransitive(run[i], run[j - 1], run[j]);
    }
  }
}
