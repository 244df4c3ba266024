/** When a reader of the Postgres projection is shown part of a committed batch, and which part. */
module PostgresBatches {
  import opened Domain
  import opened ReadModel
  import opened PostgresProtocol
  import opened PostgresInvariant
  import opened PostgresSteps
  import opened PostgresRuns
  import opened PostgresGuarantees
  import opened History

  // One drain

  /** The checkpoint that draining state s leads to. */
  ghost function DrainEnd(s: State): nat
    requires Shaped(s)
  {
    Current(s).checkpoint + |Drainable(s)|
  }

  ghost predicate CommittedBatch(s: State, k: nat) {
    k in s.commands && s.commands[k].phase == Committed && s.commands[k].sequences != []
  }

  function FirstNumber(c: Command): Sequence
    requires c.sequences != []
  {
    c.sequences[0]
  }

  function LastNumber(c: Command): Sequence
    requires c.sequences != []
  {
    c.sequences[|c.sequences| - 1]
  }

  ghost predicate GapWithin(s: State, first: Sequence, last: Sequence)
    requires Shaped(s)
  {
    exists n :: first < n < last && !IsCommitted(s, n)
  }

  /** A drain of a batch not yet reached ends inside it exactly when everything up to its first number is
      committed and some number between its first and last is not. */
  lemma SplitExactly(s: State, k: nat)
    requires Inv(s) && Drainable(s) != [] && CommittedBatch(s, k)
    requires Current(s).checkpoint < FirstNumber(s.commands[k])
    ensures var first, last := FirstNumber(s.commands[k]), LastNumber(s.commands[k]);
            first <= DrainEnd(s) < last
            <==> (forall n :: Current(s).checkpoint < n <= first ==> IsCommitted(s, n)) && GapWithin(s, first, last)
  {
    DrainAdvances(s);
    assert CommandOk(s, k);
    var first, last := FirstNumber(s.commands[k]), LastNumber(s.commands[k]);
    assert IsCommitted(s, first) && IsCommitted(s, last);
    assert !IsCommitted(s, DrainEnd(s) + 1);
    if first <= DrainEnd(s) < last {
      assert first < DrainEnd(s) + 1 < last;
    }
  }

  // Every run

  /** The checkpoint lies inside the batch: a reader may see part of it. */
  ghost predicate Split(s: State, k: nat)
    requires Shaped(s) && CommittedBatch(s, k)
  {
    FirstNumber(s.commands[k]) <= Current(s).checkpoint < LastNumber(s.commands[k])
  }

  /** Draining state s ends inside batch k. */
  ghost predicate BreaksOff(s: State, k: nat)
    requires Shaped(s)
  {
    && Drainable(s) != [] && CommittedBatch(s, k)
    && Current(s).checkpoint < FirstNumber(s.commands[k])
    && (forall n :: Current(s).checkpoint < n <= FirstNumber(s.commands[k]) ==> IsCommitted(s, n))
    && GapWithin(s, FirstNumber(s.commands[k]), LastNumber(s.commands[k]))
  }

  ghost predicate BrokenOff(run: seq<State>, u: nat, i: nat, k: nat)
    requires i < |run| && Shaped(run[i])
  {
    u < i && Shaped(run[u]) && BreaksOff(run[u], k) && DrainEnd(run[u]) <= Current(run[i]).checkpoint
  }

  /** Every checkpoint but 0 is where draining some earlier state led. */
  lemma {:induction false} CheckpointFrom(run: seq<State>, i: nat) returns (u: nat)
    requires IsRun(run) && i < |run| && Shaped(run[i]) && Current(run[i]).checkpoint > 0
    ensures u < i && Inv(run[u]) && Drainable(run[u]) != []
    ensures DrainEnd(run[u]) == Current(run[i]).checkpoint
  {
    assert i > 0;
    var last := StepOf(run, i - 1);
    if last.RelayApply? {
      u := ListedAt(run, i - 1);
      AppliesListed(run, i - 1, u);
    } else {
      SameTables(run[i - 1], last);
      u := CheckpointFrom(run, i - 1);
    }
  }

  lemma SameTables(s: State, step: Step)
    requires Shaped(s) && Enabled(s, step) && !step.RelayApply?
    ensures After(s, step).snapshots == s.snapshots
  {
  }

  lemma AppliesListed(run: seq<State>, j: nat, u: nat)
    requires IsRun(run) && u < j < |run| && Shaped(run[j]) && run[j].relay.Planned? && Carries(run[j], run[u])
    ensures Inv(run[u]) && Drainable(run[u]) != []
    ensures Current(After(run[j], RelayApply)).checkpoint == DrainEnd(run[u])
  {
    RunKeepsInv(run, u);
    RunKeepsInv(run, j);
    PlannedApplies(run[j]);
  }

  /** A batch one of whose rows is committed is committed, and never changes. */
  lemma SameBatch(run: seq<State>, u: nat, i: nat, k: nat, b: nat)
    requires IsRun(run) && u <= i < |run| && CommittedBatch(run[i], k) && b < |run[i].commands[k].sequences|
    requires Shaped(run[u]) && IsCommitted(run[u], run[i].commands[k].sequences[b])
    ensures CommittedBatch(run[u], k) && run[u].commands[k] == run[i].commands[k]
  {
    RunExtends(run, u, i);
    assert CommandOk(run[i], k);
    var n := run[i].commands[k].sequences[b];
    assert run[u].owner[n - 1] == run[i].owner[n - 1] == k;
    assert CommandExtends(run[u], run[i], k);
  }

  /** Exactly when a batch is split: the projection is not yet past it, and it was broken off by the drain
      of a state in which everything up to its first number was committed and a number inside it was not. */
  lemma SplitInRun(run: seq<State>, i: nat, k: nat)
    requires IsRun(run) && i < |run| && Shaped(run[i]) && CommittedBatch(run[i], k)
    ensures Split(run[i], k)
       <==> && Current(run[i]).checkpoint < LastNumber(run[i].commands[k])
            && exists u :: 0 <= u && BrokenOff(run, u, i, k)
  {
    if Split(run[i], k) {
      var u := SplitBroken(run, i, k);
    }
    if u: nat :| BrokenOff(run, u, i, k) {
      RunKeepsInv(run, u);
      RunExtends(run, u, i);
      assert CommandExtends(run[u], run[i], k);
      SplitExactly(run[u], k);
    }
  }

  lemma {:induction false} SplitBroken(run: seq<State>, i: nat, k: nat) returns (u: nat)
    requires IsRun(run) && i < |run| && Shaped(run[i]) && CommittedBatch(run[i], k) && Split(run[i], k)
    ensures BrokenOff(run, u, i, k)
    decreases i
  {
    RunKeepsInv(run, i);
    assert CommandOk(run[i], k);
    u := CheckpointFrom(run, i);
    DrainAdvances(run[u]);
    var first := FirstNumber(run[i].commands[k]);
    DrainedCommitted(run[u], first);
    SameBatch(run, u, i, k, 0);
    if first <= Current(run[u]).checkpoint {
      u := SplitBroken(run, u, k);
    } else {
      SplitExactly(run[u], k);
    }
  }

  lemma DrainedCommitted(s: State, n: Sequence)
    requires Inv(s) && Drainable(s) != [] && 1 <= n <= DrainEnd(s)
    ensures IsCommitted(s, n)
  {
    DrainAdvances(s);
  }

  /** The checkpoint never lies inside a batch with consecutive numbers, in any run. */
  lemma ConsecutiveNeverSplit(run: seq<State>, i: nat, k: nat)
    requires IsRun(run) && i < |run| && Shaped(run[i]) && CommittedBatch(run[i], k)
    requires var sequences := run[i].commands[k].sequences;
             forall b :: 0 <= b < |sequences| ==> sequences[b] == sequences[0] + b
    ensures !Split(run[i], k)
  {
    SplitInRun(run, i, k);
    if u: nat :| BrokenOff(run, u, i, k) {
      ConsecutiveHasNoGap(run, u, i, k);
    }
  }

  lemma ConsecutiveHasNoGap(run: seq<State>, u: nat, i: nat, k: nat)
    requires IsRun(run) && u <= i < |run| && Shaped(run[u]) && CommittedBatch(run[u], k) && k in run[i].commands
    requires var sequences := run[i].commands[k].sequences;
             forall b :: 0 <= b < |sequences| ==> sequences[b] == sequences[0] + b
    ensures !GapWithin(run[u], FirstNumber(run[u].commands[k]), LastNumber(run[u].commands[k]))
  {
    RunExtends(run, u, i);
    assert CommandExtends(run[u], run[i], k);
    var sequences := run[u].commands[k].sequences;
    forall n | sequences[0] < n < sequences[|sequences| - 1] ensures IsCommitted(run[u], n) {
      assert n == sequences[n - sequences[0]];
      BatchCommitted(run, u, k, n - sequences[0]);
    }
  }

  lemma BatchCommitted(run: seq<State>, u: nat, k: nat, b: nat)
    requires IsRun(run) && u < |run| && CommittedBatch(run[u], k) && b < |run[u].commands[k].sequences|
    ensures Shaped(run[u]) && IsCommitted(run[u], run[u].commands[k].sequences[b])
  {
    RunKeepsInv(run, u);
    assert CommandOk(run[u], k);
  }

  // What a reader of a split batch misses

  /** Nobody posts to a thread before its opening message is numbered. */
  lemma OpeningNumberedFirst(run: seq<State>, i: nat, k: nat, b: nat, n: nat)
    requires IsRun(run) && i < |run| && Shaped(run[i]) && CommittedBatch(run[i], k)
    requires b + 1 < |run[i].commands[k].batch| && b + 1 < |run[i].commands[k].sequences|
    requires Opens(run[i].commands[k].batch[b], run[i].commands[k].batch[b + 1])
    requires n < |run[i].log| && run[i].log[n].MessagePosted?
    requires Concerns(run[i].log[n], run[i].commands[k].batch[b].conversation, run[i].commands[k].batch[b].thread)
    ensures run[i].commands[k].sequences[b + 1] - 1 <= n
  {
    RunKeepsInv(run, i);
    ThreadStartedBefore(run[i], k, b, n);
    var j, l := InsertedAt(run, i, n);
    if l == k {
      OwnMessageAfter(run[i], k, b, n);
    } else {
      StartCommittedBefore(run, i, j, l, n, run[i].commands[k].sequences[b] - 1);
      SameBatch(run, j, i, k, b);
      RunKeepsInv(run, j);
      assert CommandOk(run[j], k);
    }
  }

  /** A message to a thread that a committed batch started needs that start and comes after it. */
  lemma ThreadStartedBefore(s: State, k: nat, b: nat, n: nat)
    requires Inv(s) && CommittedBatch(s, k) && b < |s.commands[k].sequences| && b < |s.commands[k].batch|
    requires s.commands[k].batch[b].ThreadStarted? && n < |s.log| && s.log[n].MessagePosted?
    requires Concerns(s.log[n], s.commands[k].batch[b].conversation, s.commands[k].batch[b].thread)
    ensures 1 <= s.commands[k].sequences[b] <= n && s.owner[s.commands[k].sequences[b] - 1] == k
    ensures Needs(s.log[n], s.log[s.commands[k].sequences[b] - 1])
  {
    assert CommandOk(s, k);
    var m := RowRests(s, n);
    OneStart(s, m, s.commands[k].sequences[b] - 1);
  }

  lemma OneStart(s: State, m: nat, n: nat)
    requires Inv(s) && m < |s.log| && n < |s.log| && Clash(s.log[m], s.log[n])
    ensures m == n
  {
    assert Clash(s.log[n], s.log[m]);
    LogWellFormed(s);
  }

  lemma OwnMessageAfter(s: State, k: nat, b: nat, n: nat)
    requires Inv(s) && CommittedBatch(s, k) && b + 1 < |s.commands[k].sequences|
    requires n < |s.log| && s.owner[n] == k && s.commands[k].sequences[b] - 1 < n
    ensures s.commands[k].sequences[b + 1] - 1 <= n
  {
    assert CommandOk(s, k) && RowOk(s, n);
    var x :| 0 <= x < |s.commands[k].sequences| && s.commands[k].sequences[x] == n + 1;
    assert x > b;
  }

  /** What another command's message needs was committed when the message was numbered. */
  lemma StartCommittedBefore(run: seq<State>, i: nat, j: nat, l: nat, n: nat, m: nat)
    requires IsRun(run) && InsertedBy(run, j, i, n, l) && run[i].log[n].MessagePosted?
    requires m < |run[i].log| && Needs(run[i].log[n], run[i].log[m]) && run[i].owner[m] != l
    ensures IsCommitted(run[j], m + 1)
  {
    LogGrows(run, j, i);
    var start := RestsAt(run, i, j, l, n);
    assert Clash(run[i].log[start], run[i].log[m]) && Clash(run[i].log[m], run[i].log[start]);
    assert run[i].owner[start] == run[j].owner[start];
  }

  /** The start a message rests on when it is numbered: its command's own row or a committed one. */
  lemma RestsAt(run: seq<State>, i: nat, j: nat, l: nat, n: nat) returns (start: nat)
    requires IsRun(run) && InsertedBy(run, j, i, n, l) && run[i].log[n].MessagePosted?
    ensures start < |run[j].log| && Needs(run[i].log[n], run[j].log[start])
    ensures run[j].owner[start] == l || IsCommitted(run[j], start + 1)
  {
    RunKeepsInv(run, j);
    var own := run[j].commands[l];
    var b := |own.sequences|;
    assert Justified(run[j], l, b) && CommandOk(run[j], l);
    if x :| 0 <= x < b && Needs(own.batch[b], own.batch[x]) {
      start := own.sequences[x] - 1;
    } else {
      start :| RestsOn(run[j], l, own.batch[b], start);
    }
  }

  lemma {:induction false} NoMessages(log: seq<Event>, c: ConversationId, t: ThreadId)
    requires forall n :: 0 <= n < |log| && log[n].MessagePosted? ==> !Concerns(log[n], c, t)
    ensures Messages(log, c, t) == []
  {
    if log != [] {
      NoMessages(log[..|log| - 1], c, t);
    }
  }

  /** The messages of a thread among the first x events, when its opening message is the first of them. */
  lemma MessagesFromOpening(log: seq<Event>, c: ConversationId, t: ThreadId, first: nat, x: nat)
    requires first < |log| && x <= |log| && log[first].MessagePosted? && Concerns(log[first], c, t)
    requires forall n :: 0 <= n < first && log[n].MessagePosted? ==> !Concerns(log[n], c, t)
    ensures x <= first ==> Messages(log[..x], c, t) == []
    ensures first < x ==> Messages(log[..x], c, t) != [] && Messages(log[..x], c, t)[0] == MessageOf(log[first])
  {
    if x <= first {
      NoMessages(log[..x], c, t);
    } else {
      NoMessages(log[..first], c, t);
      assert log[..first + 1] == log[..first] + [log[first]];
      Snoc(log[..first], log[first], c, t);
      MessagesPrefix(log, first + 1, x, c, t);
    }
  }

  /** The messages a thread shows at a checkpoint: none up to its opening message, which is the first. */
  lemma OpeningUpTo(run: seq<State>, i: nat, k: nat, b: nat, x: nat)
    requires IsRun(run) && i < |run| && Shaped(run[i]) && CommittedBatch(run[i], k) && x <= |run[i].log|
    requires b + 1 < |run[i].commands[k].batch| && b + 1 < |run[i].commands[k].sequences|
    requires Opens(run[i].commands[k].batch[b], run[i].commands[k].batch[b + 1])
    ensures var own := run[i].commands[k];
            var messages := Messages(run[i].log[..x], own.batch[b].conversation, own.batch[b].thread);
            if x < own.sequences[b + 1] then messages == []
            else messages != [] && messages[0] == MessageOf(own.batch[b + 1])
  {
    var s, own := run[i], run[i].commands[k];
    assert CommandOk(s, k) by {
      RunKeepsInv(run, i);
    }
    var c, t, first := own.batch[b].conversation, own.batch[b].thread, own.sequences[b + 1] - 1;
    forall n | 0 <= n < first && s.log[n].MessagePosted? ensures !Concerns(s.log[n], c, t) {
      if Concerns(s.log[n], c, t) {
        OpeningNumberedFirst(run, i, k, b, n);
      }
    }
    MessagesFromOpening(s.log, c, t, first, x);
  }

  /** The threads a Get over three states shows, none when it finds nothing. */
  ghost function ThreadsRead(u: State, k: State, m: State, c: ConversationId): seq<ThreadView>
    requires Shaped(u) && Shaped(k) && Shaped(m)
  {
    if ReadAcross(u, k, m, c).Success? then ReadAcross(u, k, m, c).value.threads else []
  }

  /** A reader is shown a batch's thread exactly when the thread rows are read with its start applied and the
      conversation's row with the conversation applied; and in it the opening message, always the thread's
      first, exactly when the messages are read with that applied. */
  lemma SplitShows(run: seq<State>, i: nat, command: nat, b: nat, u: nat, k: nat, m: nat)
    requires IsRun(run) && i < |run| && u < |run| && k < |run| && m < |run|
    requires Shaped(run[i]) && CommittedBatch(run[i], command)
    requires b + 1 < |run[i].commands[command].batch|
    requires Opens(run[i].commands[command].batch[b], run[i].commands[command].batch[b + 1])
    ensures |run[i].commands[command].sequences| == |run[i].commands[command].batch|
    ensures Shaped(run[u]) && Shaped(run[k]) && Shaped(run[m])
    ensures var own, log := run[i].commands[command], run[|run| - 1].log;
            var started, posted := own.batch[b], own.batch[b + 1];
            var cu, ck, cm := Current(run[u]).checkpoint, Current(run[k]).checkpoint, Current(run[m]).checkpoint;
            var threads := ThreadsRead(run[u], run[k], run[m], started.conversation);
            var x := FindThread(threads, started.thread);
            && cu <= |log|
            && (x < |threads| <==> own.sequences[b] <= ck && Created(log[..cu], started.conversation))
            && (x < |threads| ==>
                  if cm < own.sequences[b + 1] then threads[x].messages == []
                  else threads[x].messages != [] && threads[x].messages[0] == MessageOf(posted))
  {
    var z := |run| - 1;
    StaysCommittedBatch(run, i, z, command);
    var own := run[z].commands[command];
    var c, t := own.batch[b].conversation, own.batch[b].thread;
    ThreadAcross(run, u, k, m, c, t);
    StartedUpTo(run, command, b, Current(run[k]).checkpoint);
    OpeningUpTo(run, z, command, b, Current(run[m]).checkpoint);
  }

  lemma StaysCommittedBatch(run: seq<State>, i: nat, z: nat, k: nat)
    requires IsRun(run) && i <= z < |run| && Shaped(run[i]) && CommittedBatch(run[i], k)
    ensures Shaped(run[z]) && CommittedBatch(run[z], k) && run[z].commands[k] == run[i].commands[k]
    ensures |run[z].commands[k].sequences| == |run[z].commands[k].batch|
  {
    RunExtends(run, i, z);
    RunKeepsInv(run, i);
    assert CommandExtends(run[i], run[z], k) && CommandOk(run[i], k);
  }

  /** Whether a Get shows thread t of c, and with which messages. */
  lemma ThreadAcross(run: seq<State>, u: nat, k: nat, m: nat, c: ConversationId, t: ThreadId)
    requires IsRun(run) && u < |run| && k < |run| && m < |run|
    ensures Shaped(run[u]) && Shaped(run[k]) && Shaped(run[m])
    ensures var log := run[|run| - 1].log;
            var cu, ck, cm := Current(run[u]).checkpoint, Current(run[k]).checkpoint, Current(run[m]).checkpoint;
            var threads := ThreadsRead(run[u], run[k], run[m], c);
            var x := FindThread(threads, t);
            && cu <= |log| && ck <= |log| && cm <= |log|
            && (x < |threads| <==> Started(log[..ck], c, t) && Created(log[..cu], c))
            && (x < |threads| ==> threads[x].messages == Messages(log[..cm], c, t))
  {
    AcrossIsTorn(run, u, k, m, c);
    TornThread(run[|run| - 1].log, c, t, Current(run[u]).checkpoint, Current(run[k]).checkpoint,
               Current(run[m]).checkpoint);
  }

  lemma AcrossIsTorn(run: seq<State>, u: nat, k: nat, m: nat, c: ConversationId)
    requires IsRun(run) && u < |run| && k < |run| && m < |run|
    ensures Shaped(run[u]) && Shaped(run[k]) && Shaped(run[m])
    ensures var log := run[|run| - 1].log;
            var cu, ck, cm := Current(run[u]).checkpoint, Current(run[k]).checkpoint, Current(run[m]).checkpoint;
            && WellFormed(log) && cu <= |log| && ck <= |log| && cm <= |log|
            && ThreadsRead(run[u], run[k], run[m], c)
            == if StartsOf(log[..ck], c) == [] || !Created(log[..cu], c) then []
               else TornView(log, c, cu, ck, cm).threads
  {
    ReadAcrossRun(run, u, k, m, |run| - 1, c);
  }

  lemma TornThread(log: seq<Event>, c: ConversationId, t: ThreadId, u: nat, k: nat, m: nat)
    requires WellFormed(log) && u <= |log| && k <= |log| && m <= |log|
    ensures var threads := TornView(log, c, u, k, m).threads; var x := FindThread(threads, t);
            && (x < |threads| <==> Started(log[..k], c, t))
            && (x < |threads| ==> threads[x].messages == Messages(log[..m], c, t))
    ensures Started(log[..k], c, t) ==> StartsOf(log[..k], c) != []
  {
    var threads := TornView(log, c, u, k, m).threads;
    WellFormedPrefix(log, k);
    SameThread(threads, Threads(log[..k], c), t);
    if Started(log[..k], c, t) {
      ThreadFound(log[..k], c, t);
    } else {
      ThreadAbsent(log[..k], c, t);
    }
  }

  /** A batch with consecutive numbers is shown whole or not at all to a reader whose messages are read with
      no less applied than the thread rows were. */
  lemma ConsecutiveShownWhole(run: seq<State>, i: nat, command: nat, b: nat, u: nat, k: nat, m: nat)
    requires IsRun(run) && i < |run| && u < |run| && k < |run| && m < |run|
    requires Shaped(run[i]) && CommittedBatch(run[i], command)
    requires b + 1 < |run[i].commands[command].batch|
    requires Opens(run[i].commands[command].batch[b], run[i].commands[command].batch[b + 1])
    requires var sequences := run[i].commands[command].sequences;
             forall x :: 0 <= x < |sequences| ==> sequences[x] == sequences[0] + x
    requires Shaped(run[u]) && Shaped(run[k]) && Shaped(run[m])
    requires Current(run[k]).checkpoint <= Current(run[m]).checkpoint
    ensures var own := run[i].commands[command];
            var threads := ThreadsRead(run[u], run[k], run[m], own.batch[b].conversation);
            var x := FindThread(threads, own.batch[b].thread);
            x < |threads| ==>
              threads[x].messages != [] && threads[x].messages[0] == MessageOf(own.batch[b + 1])
  {
    SplitShows(run, i, command, b, u, k, m);
    var z, own := |run| - 1, run[i].commands[command];
    if own.sequences[b] <= Current(run[k]).checkpoint {
      StaysCommittedBatch(run, i, z, command);
      AppliedIsCommitted(run, k, z, command, b);
      ConsecutiveNeverSplit(run, k, command);
    }
  }

  /** A batch with a row up to the checkpoint was committed by then. */
  lemma AppliedIsCommitted(run: seq<State>, k: nat, z: nat, command: nat, b: nat)
    requires IsRun(run) && k <= z < |run| && Shaped(run[k]) && CommittedBatch(run[z], command)
    requires b < |run[z].commands[command].sequences|
    requires run[z].commands[command].sequences[b] <= Current(run[k]).checkpoint
    ensures CommittedBatch(run[k], command) && run[k].commands[command] == run[z].commands[command]
    ensures FirstNumber(run[k].commands[command]) <= run[z].commands[command].sequences[b]
            <= LastNumber(run[k].commands[command])
    ensures b + 1 < |run[z].commands[command].sequences| ==>
      run[z].commands[command].sequences[b + 1] <= LastNumber(run[k].commands[command])
  {
    RunKeepsInv(run, k);
    RunKeepsInv(run, z);
    assert CommandOk(run[z], command);
    SameBatch(run, k, z, command, b);
  }

  /** What a reader misses is exactly what is numbered above the checkpoints of its three reads: the url is
      that of the row's, the threads and their participants those of the thread rows', the messages those of
      the messages'. */
  lemma ReadIsApplied(run: seq<State>, u: nat, k: nat, m: nat, c: ConversationId)
    requires IsRun(run) && u < |run| && k < |run| && m < |run|
    ensures Shaped(run[u]) && Shaped(run[k]) && Shaped(run[m])
    ensures var log := run[|run| - 1].log;
            var cu, ck, cm := Current(run[u]).checkpoint, Current(run[k]).checkpoint, Current(run[m]).checkpoint;
            && cu <= |log| && ck <= |log| && cm <= |log|
            && var read, whole := ReadAcross(run[u], run[k], run[m], c), Threads(log[..ck], c);
            && (read.Success? <==> Created(log[..cu], c) && whole != [])
            && (read.Success? ==>
                  && read.value.id == c && read.value.url == Url(log[..cu], c)
                  && |read.value.threads| == |whole|
                  && forall x :: 0 <= x < |whole| ==>
                    read.value.threads[x] == whole[x].(messages := Messages(log[..cm], c, whole[x].id)))
  {
    ReadAcrossRun(run, u, k, m, |run| - 1, c);
  }

  lemma StartedUpTo(run: seq<State>, k: nat, b: nat, x: nat)
    requires IsRun(run) && CommittedBatch(Last(run), k) && Shaped(Last(run)) && x <= |Last(run).log|
    requires b < |Last(run).commands[k].batch| && b < |Last(run).commands[k].sequences|
    requires Last(run).commands[k].batch[b].ThreadStarted?
    ensures var started := Last(run).commands[k].batch[b];
            Started(Last(run).log[..x], started.conversation, started.thread)
            <==> Last(run).commands[k].sequences[b] <= x
  {
    RunKeepsInv(run, |run| - 1);
    var s := Last(run);
    assert CommandOk(s, k);
    var n := s.commands[k].sequences[b] - 1;
    if n < x {
      assert Starts(s.log[..x][n], s.log[n].conversation, s.log[n].thread);
    }
    if m :| 0 <= m < x && Starts(s.log[..x][m], s.log[n].conversation, s.log[n].thread) {
      OneStart(s, m, n);
    }
  }
}
