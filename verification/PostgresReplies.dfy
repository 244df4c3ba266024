/** Who gets to post in the Postgres protocol. */
module PostgresReplies {
  import opened Collections
  import opened Domain
  import opened ReadModel
  import opened PostgresRefinement
  import opened PostgresProtocol
  import opened PostgresInvariant
  import opened PostgresSteps
  import opened PostgresRuns
  import opened History

  // Authors

  /** The message's own command started its thread, its author a member. */
  ghost predicate OwnThread(s: State, n: nat)
    requires Shaped(s) && n < |s.log| && s.log[n].MessagePosted?
  {
    exists m :: 0 <= m < n && s.owner[m] == s.owner[n]
      && Starts(s.log[m], s.log[n].conversation, s.log[n].thread) && s.log[n].author in Members(s.log[m])
  }

  /** State j, before the message was numbered, had applied the thread's start and had the author a
      participant. */
  ghost predicate AdmittedAt(run: seq<State>, i: nat, j: nat, n: nat)
    requires i < |run| && n < |run[i].log| && run[i].log[n].MessagePosted?
  {
    && j < i && Shaped(run[j]) && Current(run[j]).checkpoint <= |run[j].log| <= n
    && var applied, e := run[i].log[..Current(run[j]).checkpoint], run[i].log[n];
    && Started(applied, e.conversation, e.thread)
    && e.author in Participants(applied, e.conversation, e.thread)
  }

  /** Every message of every run opens a thread of its own command or was admitted by tables that were
      current before it was numbered; whether its author is still a participant then, AuthorAtAppend says. */
  lemma MessagesAreAuthorised(run: seq<State>, i: nat, n: nat)
    requires IsRun(run) && i < |run| && Shaped(run[i]) && n < |run[i].log| && run[i].log[n].MessagePosted?
    ensures OwnThread(run[i], n) || exists j :: 0 <= j && AdmittedAt(run, i, j, n)
  {
    var j, k := InsertedAt(run, i, n);
    var d, step := DecidedAt(run, j, k);
    if step.Reply? {
      var seen := ReplyAdmitted(run, i, j, n, k, d, step);
    } else {
      OpensOwnThread(run, i, j, n, k, d, step);
    }
  }

  lemma OpensOwnThread(run: seq<State>, i: nat, j: nat, n: nat, k: nat, d: nat, step: Step)
    requires IsRun(run) && InsertedBy(run, j, i, n, k) && Decided(run, d, j, k, step)
    requires run[i].log[n].MessagePosted? && !step.Reply?
    ensures OwnThread(run[i], n)
  {
    LogGrows(run, j, i);
    var own := run[j].commands[k];
    var b := |own.sequences|;
    OwnRow(run, j, k, b - 1);
    var m := own.sequences[b - 1] - 1;
    assert run[i].log[m] == run[j].log[m] && run[i].owner[m] == run[j].owner[m];
  }

  lemma OwnRow(run: seq<State>, j: nat, k: nat, b: nat)
    requires IsRun(run) && j < |run| && k in run[j].commands && b < |run[j].commands[k].sequences|
    ensures Shaped(run[j]) && b < |run[j].commands[k].batch|
    ensures var n := run[j].commands[k].sequences[b];
            1 <= n <= |run[j].log| && run[j].log[n - 1] == run[j].commands[k].batch[b] && run[j].owner[n - 1] == k
  {
    RunKeepsInv(run, j);
    assert CommandOk(run[j], k);
  }

  lemma ReplyAdmitted(run: seq<State>, i: nat, j: nat, n: nat, k: nat, d: nat, step: Step) returns (seen: nat)
    requires IsRun(run) && InsertedBy(run, j, i, n, k) && Decided(run, d, j, k, step)
    requires step.Reply?
    ensures run[i].log[n].MessagePosted? && AdmittedAt(run, i, seen, n)
  {
    LogGrows(run, d, j);
    LogGrows(run, d, i);
    var reply := run[i].log[n];
    var checkpoint := ReplyRead(run, d, step);
    seen := SnapshotSeen(run, d, step.rows);
    LogGrows(run, seen, d);
    assert run[i].log[..checkpoint] == run[d].log[..checkpoint];
  }

  /** The rows an accepted reply was judged by had its thread, and its author in it. */
  lemma ReplyRead(run: seq<State>, d: nat, step: Step) returns (checkpoint: nat)
    requires IsRun(run) && d < |run| && Shaped(run[d]) && step.Reply? && Enabled(run[d], step)
    ensures step.rows < |run[d].snapshots| && checkpoint == run[d].snapshots[step.rows].checkpoint <= |run[d].log|
    ensures var reply, applied := Raised(run[d], step).value[0], run[d].log[..checkpoint];
            && reply.MessagePosted? && Started(applied, reply.conversation, reply.thread)
            && reply.author in Participants(applied, reply.conversation, reply.thread)
  {
    RunKeepsInv(run, d);
    var reply := Raised(run[d], step).value[0];
    var m := ReplyRests(run[d], reply, step.row, step.rows, step.posts);
    checkpoint := run[d].snapshots[step.rows].checkpoint;
    LogWellFormed(run[d]);
    WellFormedPrefix(run[d].log, checkpoint);
    if !Started(run[d].log[..checkpoint], reply.conversation, reply.thread) {
      NothingBeforeStart(run[d].log[..checkpoint], reply.conversation, reply.thread);
    }
  }

  /** The author of a message admitted by the tables of state j is a participant among the events stored
      below the message's number exactly when every removal stored since those tables has an addition stored
      after it. Rows that rolled back or are still open do not count, wherever their numbers lie. */
  lemma AuthorAtAppend(run: seq<State>, i: nat, j: nat, n: nat)
    requires IsRun(run) && i < |run| && n < |run[i].log| && run[i].log[n].MessagePosted?
    requires AdmittedAt(run, i, j, n)
    ensures Shaped(run[i])
    ensures var m, stored, e := Current(run[j]).checkpoint, CommittedLog(run[i], n), run[i].log[n];
            && m <= |stored|
            && (e.author in Participants(stored, e.conversation, e.thread)
                <==> KeptIn(stored, m, |stored|, e.conversation, e.thread, e.author))
  {
    RunKeepsInv(run, i);
    var m, stored, e := Current(run[j]).checkpoint, CommittedLog(run[i], n), run[i].log[n];
    AppliedStored(run, i, j, n);
    CommittedLogWellFormed(run[i], n);
    assert stored[..|stored|] == stored;
    ParticipantLater(stored, e.conversation, e.thread, e.author, m, |stored|);
  }

  /** What the tables of an earlier state had applied is stored first. */
  lemma AppliedStored(run: seq<State>, i: nat, j: nat, n: nat)
    requires IsRun(run) && j <= i < |run| && Shaped(run[j]) && Shaped(run[i])
    requires Current(run[j]).checkpoint <= n <= |run[i].log|
    ensures var m := Current(run[j]).checkpoint;
            m <= |CommittedLog(run[i], n)| && CommittedLog(run[i], n)[..m] == run[i].log[..m]
  {
    RunKeepsInv(run, j);
    RunExtends(run, j, i);
    forall x | 1 <= x <= Current(run[j]).checkpoint ensures IsCommitted(run[i], x) {
      StaysCommitted(run[j], run[i], x);
    }
    StoredPrefix(run[i], Current(run[j]).checkpoint, n);
  }

  lemma {:induction false} StoredPrefix(s: State, m: nat, n: nat)
    requires Shaped(s) && m <= n <= |s.log| && forall x :: 1 <= x <= m ==> IsCommitted(s, x)
    ensures m <= |CommittedLog(s, n)| && CommittedLog(s, n)[..m] == s.log[..m]
    decreases n
  {
    if m < n {
      StoredPrefix(s, m, n - 1);
    } else if n > 0 {
      StoredPrefix(s, m - 1, n - 1);
      assert IsCommitted(s, n);
      StoredLength(s, n - 1);
      assert s.log[..n] == s.log[..n - 1] + [s.log[n - 1]];
    }
  }

  lemma {:induction false} StoredLength(s: State, n: nat)
    requires Shaped(s) && n <= |s.log|
    ensures |CommittedLog(s, n)| <= n
  {
    if n > 0 {
      StoredLength(s, n - 1);
    }
  }

  // Refusals

  lemma TornAuthorisation(log: seq<Event>, reply: Event, u: nat, k: nat, m: nat)
    requires u <= |log| && k <= |log| && m <= |log| && reply.MessagePosted?
    ensures AuthorizeReply(TornView(log, reply.conversation, u, k, m), reply)
         == AuthorizeReply(View(log[..k], reply.conversation), reply)
  {
    var c := reply.conversation;
    SameThread(TornView(log, c, u, k, m).threads, View(log[..k], c).threads, reply.thread);
  }

  /** Once the thread rows a reply is judged by include a removal of its author and no later addition, a
      readable conversation refuses it, whichever moments the other two reads saw. */
  lemma RemovedIsRefused(run: seq<State>, i: nat, reply: Event, row: nat, rows: nat, posts: nat, n: nat)
    requires IsRun(run) && i < |run| && reply.MessagePosted?
    requires row < |run[i].snapshots| && rows < |run[i].snapshots| && posts < |run[i].snapshots|
    requires TornRead(run[i], reply.conversation, row, rows, posts).Success?
    requires n < run[i].snapshots[rows].checkpoint <= |run[i].log|
    requires run[i].log[n] == ParticipantRemoved(reply.conversation, reply.thread, reply.author, run[i].log[n].at)
    requires forall j :: n < j < run[i].snapshots[rows].checkpoint && run[i].log[j].ParticipantAdded?
               && Concerns(run[i].log[j], reply.conversation, reply.thread)
               ==> run[i].log[j].participant != reply.author
    ensures AuthorizeReply(TornRead(run[i], reply.conversation, row, rows, posts).value, reply) == Some(ReplyForbidden)
  {
    RunKeepsInv(run, i);
    var s := run[i];
    var u, k, m := s.snapshots[row].checkpoint, s.snapshots[rows].checkpoint, s.snapshots[posts].checkpoint;
    assert SnapshotOk(s, s.snapshots[row]) && SnapshotOk(s, s.snapshots[rows]) && SnapshotOk(s, s.snapshots[posts]);
    LogWellFormed(s);
    TornGet(s.log, reply.conversation, u, k, m, s.snapshots[row], s.snapshots[rows], s.snapshots[posts]);
    TornAuthorisation(s.log, reply, u, k, m);
    WellFormedPrefix(s.log, k);
    RemovedMayNotReply(s.log[..k], n, reply);
  }
}
