/** Postgres runs in which membership commands do not overlap: there the aggregate and the projection of what
    is applied list the same members, although rehydration reads only what has committed by then. */
module PostgresMembership {
  import opened Collections
  import opened Domain
  import opened ReadModel
  import opened PostgresProtocol
  import opened PostgresInvariant
  import opened PostgresSteps
  import opened PostgresRuns
  import opened PostgresGuarantees
  import Aggregate

  /** A membership command that has decided and neither committed nor rolled back. */
  ghost predicate Unclosed(s: State, k: nat) {
    && k in s.commands && Aggregate.IsMembership(s.commands[k].batch)
    && (s.commands[k].phase == Ready || s.commands[k].phase == Open)
  }

  ghost predicate OneAtATime(s: State) {
    forall k, l :: Unclosed(s, k) && Unclosed(s, l) ==> k == l
  }

  /** Every membership decision is inserted and closed before the next one. */
  ghost predicate Serial(run: seq<State>) {
    forall i :: 0 <= i < |run| ==> OneAtATime(run[i])
  }

  // What the aggregate of a thread depends on

  /** The events that settle the members of thread t of c. */
  function Settles(c: ConversationId, t: ThreadId): Event -> bool {
    (e: Event) => Concerns(e, c, t) && !e.MessagePosted?
  }

  lemma {:induction false} HeldOfSettling(log: seq<Event>, c: ConversationId, t: ThreadId)
    ensures Aggregate.Held(log, c, t) == Aggregate.Held(Where(log, Settles(c, t)), c, t)
  {
    if log != [] {
      var init, e := log[..|log| - 1], log[|log| - 1];
      HeldOfSettling(init, c, t);
      if Settles(c, t)(e) {
        Aggregate.OwnSnoc(Where(init, Settles(c, t)), e, c);
      } else {
        assert Where(log, Settles(c, t)) == Where(init, Settles(c, t));
      }
    }
  }

  lemma {:induction false} StoredWhere(s: State, x: nat, keep: Event -> bool)
    requires Shaped(s) && x <= |s.log|
    requires forall r :: 0 <= r < x && keep(s.log[r]) ==> IsCommitted(s, r + 1)
    ensures Where(CommittedLog(s, x), keep) == Where(s.log[..x], keep)
  {
    if x > 0 {
      StoredWhere(s, x - 1, keep);
      var e := s.log[x - 1];
      assert s.log[..x] == s.log[..x - 1] + [e];
      WhereSnoc(s.log[..x - 1], e, keep);
      WhereSnoc(CommittedLog(s, x - 1), e, keep);
      assert keep(e) ==> IsCommitted(s, (x - 1) + 1);
      assert Where(s.log[..x - 1], keep) + [] == Where(s.log[..x - 1], keep);
      assert CommittedLog(s, x - 1) + [] == CommittedLog(s, x - 1);
    }
  }

  lemma {:induction false} NoneBetween(log: seq<Event>, x: nat, n: nat, keep: Event -> bool)
    requires x <= n <= |log| && forall r :: x <= r < n ==> !keep(log[r])
    ensures Where(log[..n], keep) == Where(log[..x], keep)
    decreases n
  {
    if x < n {
      NoneBetween(log, x, n - 1, keep);
      assert log[..n] == log[..n - 1] + [log[n - 1]];
      WhereSnoc(log[..n - 1], log[n - 1], keep);
      assert Where(log[..n - 1], keep) + [] == Where(log[..n - 1], keep);
    }
  }

  // Earlier membership rows are stored when a command decides

  /** A membership row n of command k, decided in state d and inserted in state j. */
  ghost predicate MembershipRow(run: seq<State>, i: nat, n: nat, j: nat, k: nat, d: nat, step: Step) {
    && InsertedBy(run, j, i, n, k) && Decided(run, d, j, k, step)
    && Aggregate.IsMembership(run[j].commands[k].batch)
  }

  lemma FindMembershipRow(run: seq<State>, i: nat, n: nat) returns (j: nat, k: nat, d: nat, step: Step)
    requires IsRun(run) && i < |run| && n < |run[i].log|
    requires run[i].log[n].ParticipantAdded? || run[i].log[n].ParticipantRemoved?
    ensures MembershipRow(run, i, n, j, k, d, step)
    ensures (step.AddParticipant? || step.RemoveParticipant?) && Raised(run[d], step) == Some([run[i].log[n]])
  {
    j, k := InsertedAt(run, i, n);
    d, step := DecidedAt(run, j, k);
  }

  /** From its decision to its insertion a command is unclosed. */
  lemma UnclosedUntil(run: seq<State>, i: nat, n: nat, j: nat, k: nat, d: nat, step: Step, x: nat)
    requires IsRun(run) && MembershipRow(run, i, n, j, k, d, step) && d < x <= j
    ensures Unclosed(run[x], k)
  {
    CommandGrows(run, d + 1, x, k);
    CommandGrows(run, x, j, k);
  }

  lemma OpenAfterInsert(run: seq<State>, i: nat, n: nat, j: nat, k: nat, d: nat, step: Step)
    requires IsRun(run) && MembershipRow(run, i, n, j, k, d, step)
    ensures Unclosed(run[j + 1], k) && |run[j + 1].commands[k].sequences| == 1 && |run[j + 1].log| == n + 1
    ensures run[j].commands[k].sequences == []
  {
  }

  /** Of two membership rows the earlier one's command was closed when the later one's decided. */
  lemma InsertedBeforeDecision(run: seq<State>, i: nat, r: nat, j': nat, k': nat, d': nat, step': Step,
                               n: nat, j: nat, k: nat, d: nat, step: Step)
    requires IsRun(run) && Serial(run) && r < n
    requires MembershipRow(run, i, r, j', k', d', step') && MembershipRow(run, i, n, j, k, d, step)
    ensures j' < d && k' != k
  {
    OpenAfterInsert(run, i, r, j', k', d', step');
    OpenAfterInsert(run, i, n, j, k, d, step);
    InsertionsInOrder(run, i, r, j', k', n, j, k);
    assert OneAtATime(run[j' + 1]);
    CommandGrows(run, j' + 1, j, k');
    if d <= j' {
      UnclosedUntil(run, i, n, j, k, d, step, j' + 1);
    }
  }

  lemma InsertionsInOrder(run: seq<State>, i: nat, r: nat, j': nat, k': nat, n: nat, j: nat, k: nat)
    requires IsRun(run) && r < n && InsertedBy(run, j', i, r, k') && InsertedBy(run, j, i, n, k)
    ensures j' < j
  {
    if j <= j' {
      LogGrows(run, j, j');
    }
  }

  /** So a committed one was committed by then. */
  lemma StoredAtDecision(run: seq<State>, i: nat, r: nat, n: nat, j: nat, k: nat, d: nat, step: Step)
    requires IsRun(run) && Serial(run) && i < |run| && Shaped(run[i]) && r < n < |run[i].log|
    requires MembershipRow(run, i, n, j, k, d, step) && IsCommitted(run[i], r + 1)
    requires run[i].log[r].ParticipantAdded? || run[i].log[r].ParticipantRemoved?
    ensures Shaped(run[d]) && r < |run[d].log| && IsCommitted(run[d], r + 1)
  {
    var j', k', d', step' := FindMembershipRow(run, i, r);
    InsertedBeforeDecision(run, i, r, j', k', d', step', n, j, k, d, step);
    OpenAfterInsert(run, i, r, j', k', d', step');
    ClosedAtDecision(run, i, n, j, k, d, step, k', j' + 1);
    LogGrows(run, j' + 1, d);
    LogGrows(run, d, i);
    CommittedStays(run, d, i, k');
    assert run[d].owner[r] == run[i].owner[r] == k';
  }

  lemma ClosedAtDecision(run: seq<State>, i: nat, n: nat, j: nat, k: nat, d: nat, step: Step, k': nat, x: nat)
    requires IsRun(run) && Serial(run) && MembershipRow(run, i, n, j, k, d, step)
    requires x <= d && Unclosed(run[x], k') && k' != k
    ensures k' in run[d].commands && run[d].commands[k'].phase != Ready && run[d].commands[k'].phase != Open
  {
    CommandGrows(run, x, d, k');
    UnclosedUntil(run, i, n, j, k, d, step, d + 1);
    assert OneAtATime(run[d + 1]);
    assert run[d + 1].commands[k'] == run[d].commands[k'];
    assert !Unclosed(run[d + 1], k');
  }

  /** A closed command stays as it closed. */
  lemma CommittedStays(run: seq<State>, d: nat, i: nat, k: nat)
    requires IsRun(run) && d <= i < |run| && k in run[d].commands
    requires run[d].commands[k].phase != Ready && run[d].commands[k].phase != Open
    ensures k in run[i].commands && run[i].commands[k] == run[d].commands[k]
  {
    CommandGrows(run, d, i, k);
  }

  // Decided from the log

  /** What a membership command rehydrated holds what the whole log below its row gives, provided that is
      committed in the end. */
  lemma SameHeld(run: seq<State>, i: nat, n: nat, j: nat, k: nat, d: nat, step: Step)
    requires IsRun(run) && Serial(run) && i < |run| && Shaped(run[i]) && n < |run[i].log|
    requires MembershipRow(run, i, n, j, k, d, step)
    requires step.AddParticipant? || step.RemoveParticipant?
    requires forall r :: 1 <= r <= n ==> IsCommitted(run[i], r)
    requires step.membership.thread in Rehydrated(run[d], step.membership.conversation).threads
    ensures Shaped(run[d])
    ensures var c, t := step.membership.conversation, step.membership.thread;
            && Started(run[i].log[..n], c, t)
            && Aggregate.Held(run[i].log[..n], c, t) == Aggregate.Held(CommittedLog(run[d], |run[d].log|), c, t)
  {
    var c, t := step.membership.conversation, step.membership.thread;
    var m := StartStored(run, d, c, t);
    LogGrows(run, d, j);
    LogGrows(run, d, i);
    assert Starts(run[i].log[..n][m], c, t);
    forall r | 0 <= r < n && Settles(c, t)(run[i].log[r]) ensures r < |run[d].log| && IsCommitted(run[d], r + 1) {
      if run[i].log[r].ThreadStarted? {
        assert Clash(run[i].log[r], run[i].log[m]) && Clash(run[i].log[m], run[i].log[r]);
      } else {
        assert IsCommitted(run[i], r + 1);
        StoredAtDecision(run, i, r, n, j, k, d, step);
      }
    }
    SettledSame(run[i].log, run[d], n, c, t);
  }

  lemma StartStored(run: seq<State>, d: nat, c: ConversationId, t: ThreadId) returns (m: nat)
    requires IsRun(run) && d < |run| && Shaped(run[d]) && t in Rehydrated(run[d], c).threads
    ensures m < |run[d].log| && IsCommitted(run[d], m + 1) && Starts(run[d].log[m], c, t)
  {
    RunKeepsInv(run, d);
    m := ManageRests(run[d], c, t);
  }

  lemma SettledSame(log: seq<Event>, s: State, n: nat, c: ConversationId, t: ThreadId)
    requires Shaped(s) && s.log <= log && |s.log| <= n <= |log|
    requires forall r :: 0 <= r < n && Settles(c, t)(log[r]) ==> r < |s.log| && IsCommitted(s, r + 1)
    ensures Aggregate.Held(log[..n], c, t) == Aggregate.Held(CommittedLog(s, |s.log|), c, t)
  {
    var x := |s.log|;
    NoneBetween(log, x, n, Settles(c, t));
    assert log[..x] == s.log == s.log[..x];
    StoredWhere(s, x, Settles(c, t));
    HeldOfSettling(log[..n], c, t);
    HeldOfSettling(CommittedLog(s, x), c, t);
  }

  lemma DecidedFromLog(run: seq<State>, i: nat, n: nat)
    requires IsRun(run) && Serial(run) && i < |run| && Shaped(run[i]) && n < |run[i].log|
    requires forall r :: 1 <= r <= n ==> IsCommitted(run[i], r)
    ensures Aggregate.DecidedInPlace(run[i].log, n)
  {
    var e := run[i].log[n];
    if e.ParticipantAdded? || e.ParticipantRemoved? {
      var j, k, d, step := FindMembershipRow(run, i, n);
      MembershipNamesItsConversation(run, d, step);
      SameHeld(run, i, n, j, k, d, step);
      LogGrows(run, i, i);
      WellFormedPrefix(run[i].log, n);
      Aggregate.AggregateOf(run[i].log[..n], e.conversation, e.thread);
      HeldAtDecision(run, d, e.conversation, e.thread);
    }
  }

  lemma HeldAtDecision(run: seq<State>, d: nat, c: ConversationId, t: ThreadId)
    requires IsRun(run) && d < |run| && Shaped(run[d]) && t in Rehydrated(run[d], c).threads
    ensures Rehydrated(run[d], c).threads[t] == Aggregate.Held(CommittedLog(run[d], |run[d].log|), c, t)
  {
    RunKeepsInv(run, d);
    CommittedLogWellFormed(run[d], |run[d].log|);
    Aggregate.ReplayHolds(CommittedLog(run[d], |run[d].log|), c, t);
  }

  lemma StartsWell(run: seq<State>, i: nat, n: nat)
    requires IsRun(run) && i < |run| && n < |run[i].log|
    ensures WellStarted(run[i].log[n])
  {
    var j, k := InsertedAt(run, i, n);
    var d, step := DecidedAt(run, j, k);
    match step {
      case StartConversation(_, url, p) => StartedMembersDistinct(p);
      case AddThread(_, p, _) => StartedMembersDistinct(p);
      case _ =>
    }
  }

  /** What is applied is uninterleaved, whatever else was open, interleaved or rolled back. */
  lemma SerialIsUninterleaved(run: seq<State>, i: nat)
    requires IsRun(run) && Serial(run) && i < |run|
    ensures Shaped(run[i]) && Current(run[i]).checkpoint <= |run[i].log|
    ensures Aggregate.Uninterleaved(run[i].log[..Current(run[i]).checkpoint])
  {
    ProjectionIsFold(run, i);
    var applied := run[i].log[..Current(run[i]).checkpoint];
    forall n | 0 <= n < |applied| ensures WellStarted(applied[n]) && Aggregate.DecidedInPlace(applied, n) {
      StartsWell(run, i, n);
      DecidedFromLog(run, i, n);
      assert applied[..n] == run[i].log[..n];
    }
  }

  /** So the projection and the aggregate of what it has applied list the same members in every state. */
  lemma SerialAgrees(run: seq<State>, i: nat, c: ConversationId, t: ThreadId)
    requires IsRun(run) && Serial(run) && i < |run|
    ensures Shaped(run[i]) && Current(run[i]).checkpoint <= |run[i].log|
    ensures var applied := run[i].log[..Current(run[i]).checkpoint];
            var a := Aggregate.Replay(Aggregate.Own(applied, c));
            && (t in a.threads <==> Started(applied, c, t))
            && Aggregate.MembersOf(a, t) == Participants(applied, c, t)
            && NoDuplicates(Participants(applied, c, t))
  {
    SerialIsUninterleaved(run, i);
    LogGrows(run, i, i);
    var applied := run[i].log[..Current(run[i]).checkpoint];
    WellFormedPrefix(run[i].log, Current(run[i]).checkpoint);
    Aggregate.UninterleavedAgrees(applied, c, t, |applied|);
    assert applied[..|applied|] == applied;
  }
}
