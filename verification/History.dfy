/** What a longer log keeps of a shorter one, and who is a thread's participant. */
module History {
  import opened Collections
  import opened Domain
  import opened ReadModel

  // Views only grow

  /** Everything v shows is still shown by v', in the same place; participants aside. */
  predicate GrownFrom(v: ConversationView, v': ConversationView) {
    && v'.id == v.id && v'.url == v.url
    && |v.threads| <= |v'.threads|
    && (forall i :: 0 <= i < |v.threads| ==>
          && v'.threads[i].id == v.threads[i].id
          && v'.threads[i].title == v.threads[i].title
          && v.threads[i].messages <= v'.threads[i].messages)
  }

  lemma {:induction false} StartsPrefix(log: seq<Event>, k: nat, m: nat, c: ConversationId)
    requires k <= m <= |log|
    ensures StartsOf(log[..k], c) <= StartsOf(log[..m], c)
    decreases m
  {
    if k < m {
      assert log[..m][..m - 1] == log[..m - 1];
      StartsPrefix(log, k, m - 1, c);
    }
  }

  lemma {:induction false} MessagesPrefix(log: seq<Event>, k: nat, m: nat, c: ConversationId, t: ThreadId)
    requires k <= m <= |log|
    ensures Messages(log[..k], c, t) <= Messages(log[..m], c, t)
    decreases m
  {
    if k < m {
      assert log[..m][..m - 1] == log[..m - 1];
      MessagesPrefix(log, k, m - 1, c, t);
    }
  }

  lemma {:induction false} UrlKept(log: seq<Event>, k: nat, m: nat, c: ConversationId)
    requires k <= m <= |log|
    requires forall n :: k <= n < m ==> !(log[n].ConversationCreated? && log[n].conversation == c)
    ensures Url(log[..m], c) == Url(log[..k], c)
    decreases m
  {
    if k < m {
      UrlKept(log, k, m - 1, c);
      var init, last := log[..m - 1], log[m - 1];
      assert log[..m] == init + [last];
      Snoc(init, last, c, "");
    }
  }

  lemma CreatedOnce(log: seq<Event>, k: nat, n: nat, c: ConversationId)
    requires k <= n < |log| && WellFormed(log) && Created(log[..k], c)
    ensures !(log[n].ConversationCreated? && log[n].conversation == c)
  {
    var i :| 0 <= i < k && log[..k][i].ConversationCreated? && log[..k][i].conversation == c;
    assert !Clash(log[i], log[n]);
  }

  /** A conversation put together from its row as of u, its threads as of k and its messages as of m. */
  function TornView(log: seq<Event>, c: ConversationId, u: nat, k: nat, m: nat): (v: ConversationView)
    requires u <= |log| && k <= |log| && m <= |log|
    ensures |v.threads| == |StartsOf(log[..k], c)|
  {
    var threads := Threads(log[..k], c);
    ConversationView(c, Url(log[..u], c),
      seq(|threads|, j requires 0 <= j < |threads| => threads[j].(messages := Messages(log[..m], c, threads[j].id))))
  }

  /** A view torn over three states still shows everything that one torn over three earlier ones showed. */
  lemma TornViewGrows(log: seq<Event>, c: ConversationId, u: nat, k: nat, m: nat, u': nat, k': nat, m': nat)
    requires WellFormed(log) && u <= u' <= |log| && k <= k' <= |log| && m <= m' <= |log|
    requires Created(log[..u], c)
    ensures GrownFrom(TornView(log, c, u, k, m), TornView(log, c, u', k', m'))
  {
    forall n | u <= n < u' ensures !(log[n].ConversationCreated? && log[n].conversation == c) {
      CreatedOnce(log, u, n, c);
    }
    UrlKept(log, u, u', c);
    StartsPrefix(log, k, k', c);
    var v, v' := TornView(log, c, u, k, m), TornView(log, c, u', k', m');
    forall i | 0 <= i < |v.threads|
      ensures && v'.threads[i].id == v.threads[i].id && v'.threads[i].title == v.threads[i].title
              && v.threads[i].messages <= v'.threads[i].messages
    {
      var n := StartsOf(log[..k], c)[i];
      assert StartsOf(log[..k'], c)[i] == n && log[..k][n] == log[..k'][n] == log[n];
      MessagesPrefix(log, m, m', c, v.threads[i].id);
    }
  }

  lemma TornViewWhole(log: seq<Event>, c: ConversationId, k: nat)
    requires k <= |log|
    ensures TornView(log, c, k, k, k) == View(log[..k], c)
  {
    var v, v' := View(log[..k], c), TornView(log, c, k, k, k);
    forall j | 0 <= j < |v.threads| ensures v'.threads[j] == v.threads[j] {
      var n := StartsOf(log[..k], c)[j];
      assert v.threads[j] == ThreadAt(log[..k], n);
    }
  }

  lemma ViewsGrow(log: seq<Event>, c: ConversationId, k: nat, m: nat)
    requires WellFormed(log) && k <= m <= |log| && Created(log[..k], c)
    ensures GrownFrom(View(log[..k], c), View(log[..m], c))
  {
    TornViewGrows(log, c, k, k, k, m, m, m);
    TornViewWhole(log, c, k);
    TornViewWhole(log, c, m);
  }

  /** A message of the log is in its thread's message list. */
  lemma {:induction false} MessageShown(log: seq<Event>, i: nat)
    requires i < |log| && log[i].MessagePosted?
    ensures MessageOf(log[i]) in Messages(log, log[i].conversation, log[i].thread)
  {
    if i < |log| - 1 {
      MessageShown(log[..|log| - 1], i);
    }
  }

  // Who is a participant

  predicate Grants(e: Event, c: ConversationId, t: ThreadId, p: ParticipantId) {
    && Concerns(e, c, t)
    && ((e.ThreadStarted? && p in Members(e)) || (e.ParticipantAdded? && e.participant == p))
  }

  predicate Revokes(e: Event, c: ConversationId, t: ThreadId, p: ParticipantId) {
    && Concerns(e, c, t)
    && ((e.ThreadStarted? && p !in Members(e)) || (e.ParticipantRemoved? && e.participant == p))
  }

  /** The last word about p in thread t of c is that p is in. */
  ghost predicate LastWordIn(log: seq<Event>, c: ConversationId, t: ThreadId, p: ParticipantId) {
    exists i :: 0 <= i < |log| && Grants(log[i], c, t, p)
      && forall j :: i < j < |log| ==> !Revokes(log[j], c, t, p)
  }

  lemma LastWordSnoc(log: seq<Event>, e: Event, c: ConversationId, t: ThreadId, p: ParticipantId)
    ensures LastWordIn(log + [e], c, t, p)
       <==> Grants(e, c, t, p) || (LastWordIn(log, c, t, p) && !Revokes(e, c, t, p))
  {
    var all := log + [e];
    assert all[|log|] == e;
    if i :| 0 <= i < |all| && Grants(all[i], c, t, p) && forall j :: i < j < |all| ==> !Revokes(all[j], c, t, p) {
      if i < |log| {
        assert Grants(log[i], c, t, p) && !Revokes(all[|log|], c, t, p);
        assert forall j :: i < j < |log| ==> !Revokes(log[j], c, t, p) by {
          assert forall j :: i < j < |log| ==> all[j] == log[j];
        }
      }
    }
    if LastWordIn(log, c, t, p) && !Revokes(e, c, t, p) {
      var i :| 0 <= i < |log| && Grants(log[i], c, t, p) && forall j :: i < j < |log| ==> !Revokes(log[j], c, t, p);
      assert Grants(all[i], c, t, p) && forall j :: i < j < |all| ==> !Revokes(all[j], c, t, p);
    }
    if Grants(e, c, t, p) {
      assert Grants(all[|log|], c, t, p);
    }
  }

  /** A participant is whoever was started with or added and not removed since. */
  lemma {:induction false} ParticipantsAreLastWord(log: seq<Event>, c: ConversationId, t: ThreadId, p: ParticipantId)
    ensures p in Participants(log, c, t) <==> LastWordIn(log, c, t, p)
  {
    if log != [] {
      var init, e := log[..|log| - 1], log[|log| - 1];
      assert log == init + [e];
      ParticipantsAreLastWord(init, c, t, p);
      LastWordSnoc(init, e, c, t, p);
      OthersStay(Participants(init, c, t), e, c, t, p);
    }
  }

  lemma OthersStay(members: seq<ParticipantId>, e: Event, c: ConversationId, t: ThreadId, p: ParticipantId)
    ensures p in MembershipStep(members, e, c, t) <==> Grants(e, c, t, p) || (p in members && !Revokes(e, c, t, p))
  {
    if Concerns(e, c, t) && e.ParticipantRemoved? {
      WithoutCounts(members, e.participant);
      assert p in Without(members, e.participant) <==> p in multiset(Without(members, e.participant));
    }
  }

  predicate Adds(e: Event, c: ConversationId, t: ThreadId, p: ParticipantId) {
    Concerns(e, c, t) && e.ParticipantAdded? && e.participant == p
  }

  predicate Removes(e: Event, c: ConversationId, t: ThreadId, p: ParticipantId) {
    Concerns(e, c, t) && e.ParticipantRemoved? && e.participant == p
  }

  ghost predicate AddedBetween(log: seq<Event>, i: nat, n: nat, c: ConversationId, t: ThreadId, p: ParticipantId)
    requires n <= |log|
  {
    exists j :: i < j < n && Adds(log[j], c, t, p)
  }

  ghost predicate RemovedBetween(log: seq<Event>, i: nat, n: nat, c: ConversationId, t: ThreadId, p: ParticipantId)
    requires n <= |log|
  {
    exists j :: i < j < n && Removes(log[j], c, t, p)
  }

  /** Every removal of p at a position in [m, n) has an addition after it, before n. */
  ghost predicate KeptIn(log: seq<Event>, m: nat, n: nat, c: ConversationId, t: ThreadId, p: ParticipantId)
    requires n <= |log|
  {
    forall i :: m <= i < n && Removes(log[i], c, t, p) ==> AddedBetween(log, i, n, c, t, p)
  }

  /** Some addition of p at a position in [m, n) has no removal after it, before n. */
  ghost predicate LetIn(log: seq<Event>, m: nat, n: nat, c: ConversationId, t: ThreadId, p: ParticipantId)
    requires n <= |log|
  {
    exists i :: m <= i < n && Adds(log[i], c, t, p) && !RemovedBetween(log, i, n, c, t, p)
  }

  /** p is in the thread after n events exactly as those from m on leave p, given whether p was in by then. */
  ghost predicate LaterIn(log: seq<Event>, m: nat, n: nat, c: ConversationId, t: ThreadId, p: ParticipantId)
    requires m <= |log| && n <= |log|
  {
    p in Participants(log[..n], c, t)
    <==> if p in Participants(log[..m], c, t) then KeptIn(log, m, n, c, t, p) else LetIn(log, m, n, c, t, p)
  }

  /** Who is a participant of a started thread later on is exactly who was and is kept in, or was not and
      is let in. */
  lemma {:induction false} ParticipantLater(log: seq<Event>, c: ConversationId, t: ThreadId, p: ParticipantId,
                                            m: nat, n: nat)
    requires WellFormed(log) && m <= n <= |log| && Started(log[..m], c, t)
    ensures LaterIn(log, m, n, c, t, p)
    decreases n
  {
    if m < n {
      ParticipantLater(log, c, t, p, m, n - 1);
      LaterNext(log, c, t, p, m, n);
    }
  }

  lemma LaterNext(log: seq<Event>, c: ConversationId, t: ThreadId, p: ParticipantId, m: nat, n: nat)
    requires WellFormed(log) && m < n <= |log| && Started(log[..m], c, t) && LaterIn(log, m, n - 1, c, t, p)
    ensures LaterIn(log, m, n, c, t, p)
  {
    NoSecondStart(log, c, t, m, n - 1);
    LaterStep(log, c, t, p, m, n);
  }

  lemma LaterStep(log: seq<Event>, c: ConversationId, t: ThreadId, p: ParticipantId, m: nat, n: nat)
    requires m < n <= |log| && LaterIn(log, m, n - 1, c, t, p) && !Starts(log[n - 1], c, t)
    ensures LaterIn(log, m, n, c, t, p)
  {
    ParticipantStep(log, c, t, p, n);
    KeptInStep(log, m, n, c, t, p);
    LetInStep(log, m, n, c, t, p);
  }

  lemma NoSecondStart(log: seq<Event>, c: ConversationId, t: ThreadId, m: nat, n: nat)
    requires WellFormed(log) && m <= n < |log| && Started(log[..m], c, t)
    ensures !Starts(log[n], c, t)
  {
    var i :| 0 <= i < m && Starts(log[..m][i], c, t);
    assert !Clash(log[i], log[n]);
  }

  lemma ParticipantStep(log: seq<Event>, c: ConversationId, t: ThreadId, p: ParticipantId, n: nat)
    requires 0 < n <= |log| && !Starts(log[n - 1], c, t)
    ensures p in Participants(log[..n], c, t)
       <==> Adds(log[n - 1], c, t, p) || (p in Participants(log[..n - 1], c, t) && !Removes(log[n - 1], c, t, p))
  {
    assert log[..n] == log[..n - 1] + [log[n - 1]];
    Snoc(log[..n - 1], log[n - 1], c, t);
    OthersStay(Participants(log[..n - 1], c, t), log[n - 1], c, t, p);
  }

  lemma KeptInStep(log: seq<Event>, m: nat, n: nat, c: ConversationId, t: ThreadId, p: ParticipantId)
    requires m < n <= |log|
    ensures KeptIn(log, m, n, c, t, p)
       <==> Adds(log[n - 1], c, t, p) || (KeptIn(log, m, n - 1, c, t, p) && !Removes(log[n - 1], c, t, p))
  {
    forall i | m <= i < n - 1
      ensures AddedBetween(log, i, n, c, t, p) <==> AddedBetween(log, i, n - 1, c, t, p) || Adds(log[n - 1], c, t, p)
    {
    }
    assert !AddedBetween(log, n - 1, n, c, t, p);
  }

  lemma LetInStep(log: seq<Event>, m: nat, n: nat, c: ConversationId, t: ThreadId, p: ParticipantId)
    requires m < n <= |log|
    ensures LetIn(log, m, n, c, t, p)
       <==> Adds(log[n - 1], c, t, p) || (LetIn(log, m, n - 1, c, t, p) && !Removes(log[n - 1], c, t, p))
  {
    forall i | m <= i < n - 1
      ensures RemovedBetween(log, i, n, c, t, p)
         <==> RemovedBetween(log, i, n - 1, c, t, p) || Removes(log[n - 1], c, t, p)
    {
    }
    assert !RemovedBetween(log, n - 1, n, c, t, p);
  }

  // What a view shows of an event

  /** The view shows what event e put there; membership events are left to MembershipShown. */
  predicate Shows(v: ConversationView, e: Event) {
    match e
    case ConversationCreated(c, _, url, _) => v.id == c && v.url == url
    case ThreadStarted(_, t, title, _, _, _) =>
      exists i :: 0 <= i < |v.threads| && v.threads[i].id == t && v.threads[i].title == title
    case MessagePosted(_, t, _, _, _, _) =>
      exists i :: 0 <= i < |v.threads| && v.threads[i].id == t && MessageOf(e) in v.threads[i].messages
    case _ => true
  }

  lemma ViewShows(log: seq<Event>, n: nat)
    requires WellFormed(log) && n < |log|
    ensures Shows(View(log, log[n].conversation), log[n])
  {
    var e, c := log[n], log[n].conversation;
    match e {
      case ConversationCreated(_, _, _, _) => UrlShown(log, n);
      case ThreadStarted(_, t, _, _, _, _) =>
        StartsFound(log, c, n);
        var i :| 0 <= i < |StartsOf(log, c)| && StartsOf(log, c)[i] == n;
        assert Threads(log, c)[i] == ThreadAt(log, n);
      case MessagePosted(_, t, _, _, _, _) =>
        MessageShown(log, n);
        assert Grounded(log[..n], e);
        var m :| 0 <= m < n && Needs(e, log[..n][m]);
        assert Starts(log[m], c, t);
        ThreadFound(log, c, t);
      case _ =>
    }
  }

  lemma {:induction false} UrlShown(log: seq<Event>, n: nat)
    requires WellFormed(log) && n < |log| && log[n].ConversationCreated?
    ensures Url(log, log[n].conversation) == log[n].url
  {
    if n < |log| - 1 {
      assert !Clash(log[n], log[|log| - 1]);
      WellFormedPrefix(log, |log| - 1);
      UrlShown(log[..|log| - 1], n);
    }
  }

  lemma GrownShows(v: ConversationView, v': ConversationView, e: Event)
    requires GrownFrom(v, v') && Shows(v, e)
    ensures Shows(v', e)
  {
    match e {
      case ThreadStarted(_, t, title, _, _, _) =>
        var i :| 0 <= i < |v.threads| && v.threads[i].id == t && v.threads[i].title == title;
        assert v'.threads[i].id == t && v'.threads[i].title == title;
      case MessagePosted(_, t, _, _, _, _) =>
        var i :| 0 <= i < |v.threads| && v.threads[i].id == t && MessageOf(e) in v.threads[i].messages;
        assert MessageOf(e) in v'.threads[i].messages;
      case _ =>
    }
  }

  lemma HasThreadIfNotNew(log: seq<Event>, n: nat)
    requires WellFormed(log) && n < |log| && !log[n].ConversationCreated?
    ensures StartsOf(log, log[n].conversation) != []
  {
    var c := log[n].conversation;
    if log[n].ThreadStarted? {
      StartsFound(log, c, n);
    } else {
      assert Grounded(log[..n], log[n]);
      var t :| 0 <= t < n && Needs(log[n], log[..n][t]);
      StartsFound(log, c, t);
    }
  }

  /** The thread a membership event is about is in the view, and its participant is in it exactly when
      the events after it, up to n, leave them in. The event stands at i of the log. */
  ghost predicate MembershipShown(v: ConversationView, log: seq<Event>, i: nat, n: nat)
    requires i < n <= |log| && (log[i].ParticipantAdded? || log[i].ParticipantRemoved?)
  {
    var e := log[i];
    exists x :: 0 <= x < |v.threads| && v.threads[x].id == e.thread
      && (e.participant in v.threads[x].participants
          <==> if e.ParticipantAdded? then KeptIn(log, i + 1, n, e.conversation, e.thread, e.participant)
               else LetIn(log, i + 1, n, e.conversation, e.thread, e.participant))
  }

  /** It depends on the first n events alone. */
  lemma SameMembershipShown(v: ConversationView, log: seq<Event>, log': seq<Event>, i: nat, n: nat)
    requires i < n <= |log| && n <= |log'| && log[..n] == log'[..n]
    requires (log[i].ParticipantAdded? || log[i].ParticipantRemoved?) && MembershipShown(v, log, i, n)
    ensures log'[i] == log[i] && MembershipShown(v, log', i, n)
  {
    assert log'[i] == log'[..n][i] == log[..n][i] == log[i];
    SameKept(log, log', i + 1, n, log[i].conversation, log[i].thread, log[i].participant);
  }

  lemma SameKept(log: seq<Event>, log': seq<Event>, m: nat, n: nat, c: ConversationId, t: ThreadId, p: ParticipantId)
    requires m <= n <= |log| && n <= |log'| && log[..n] == log'[..n]
    ensures KeptIn(log, m, n, c, t, p) <==> KeptIn(log', m, n, c, t, p)
    ensures LetIn(log, m, n, c, t, p) <==> LetIn(log', m, n, c, t, p)
    decreases n
  {
    if m < n {
      assert log[n - 1] == log[..n][n - 1] == log'[..n][n - 1] == log'[n - 1];
      assert log[..n - 1] == log[..n][..n - 1] == log'[..n][..n - 1] == log'[..n - 1];
      SameKept(log, log', m, n - 1, c, t, p);
      KeptInStep(log, m, n, c, t, p);
      KeptInStep(log', m, n, c, t, p);
      LetInStep(log, m, n, c, t, p);
      LetInStep(log', m, n, c, t, p);
    }
  }

  lemma MembershipEffect(log: seq<Event>, i: nat, n: nat)
    requires WellFormed(log) && i < n <= |log| && (log[i].ParticipantAdded? || log[i].ParticipantRemoved?)
    ensures var e := log[i];
            e.participant in Participants(log[..n], e.conversation, e.thread)
            <==> if e.ParticipantAdded? then KeptIn(log, i + 1, n, e.conversation, e.thread, e.participant)
                 else LetIn(log, i + 1, n, e.conversation, e.thread, e.participant)
  {
    var c, t, p := log[i].conversation, log[i].thread, log[i].participant;
    TargetStarted(log, i, i + 1);
    OwnEffect(log, i);
    ParticipantLater(log, c, t, p, i + 1, n);
    assert LaterIn(log, i + 1, n, c, t, p);
  }

  lemma OwnEffect(log: seq<Event>, i: nat)
    requires i < |log| && (log[i].ParticipantAdded? || log[i].ParticipantRemoved?)
    ensures log[i].participant in Participants(log[..i + 1], log[i].conversation, log[i].thread)
       <==> log[i].ParticipantAdded?
  {
    ParticipantStep(log, log[i].conversation, log[i].thread, log[i].participant, i + 1);
  }

  lemma TargetStarted(log: seq<Event>, i: nat, n: nat)
    requires WellFormed(log) && i < n <= |log| && !log[i].ConversationCreated? && !log[i].ThreadStarted?
    ensures Started(log[..n], log[i].conversation, log[i].thread)
  {
    assert Grounded(log[..i], log[i]);
    var s :| 0 <= s < i && Needs(log[i], log[..i][s]);
    assert Starts(log[..n][s], log[i].conversation, log[i].thread);
  }

  /** A torn view shows membership as of its thread rows. */
  lemma TornMembership(log: seq<Event>, c: ConversationId, u: nat, k: nat, m: nat, i: nat)
    requires WellFormed(log) && u <= |log| && k <= |log| && m <= |log|
    requires i < k && (log[i].ParticipantAdded? || log[i].ParticipantRemoved?) && log[i].conversation == c
    ensures MembershipShown(TornView(log, c, u, k, m), log, i, k)
  {
    var t := log[i].thread;
    MembershipEffect(log, i, k);
    TargetStarted(log, i, k);
    WellFormedPrefix(log, k);
    ThreadFound(log[..k], c, t);
    var x := FindThread(Threads(log[..k], c), t);
    var v := TornView(log, c, u, k, m);
    assert v.threads[x].id == t && v.threads[x].participants == Participants(log[..k], c, t);
  }

  lemma TornMembershipSeen(log: seq<Event>, mine: seq<Event>, u: nat, k: nat, m: nat, n: nat)
    requires WellFormed(log) && u <= |log| && m <= |log| && mine <= log && n < k <= |mine|
    requires mine[n].ParticipantAdded? || mine[n].ParticipantRemoved?
    ensures MembershipShown(TornView(log, mine[n].conversation, u, k, m), mine, n, k)
  {
    assert log[..k] == mine[..k] && log[n] == mine[n];
    TornMembership(log, mine[n].conversation, u, k, m, n);
    SameMembershipShown(TornView(log, mine[n].conversation, u, k, m), log, mine, n, k);
  }

  // Replies

  /** Two thread lists with the same ids have a thread at the same place. */
  lemma {:induction false} SameThread(a: seq<ThreadView>, b: seq<ThreadView>, t: ThreadId)
    requires |a| == |b| && forall i :: 0 <= i < |a| ==> a[i].id == b[i].id
    ensures FindThread(a, t) == FindThread(b, t)
  {
    if a != [] {
      SameThread(a[1..], b[1..], t);
    }
  }

  /** Authorisation against a log's view: exactly the thread's participants may reply. */
  lemma ReplyAuthorised(log: seq<Event>, reply: Event)
    requires WellFormed(log) && reply.MessagePosted?
    ensures AuthorizeReply(View(log, reply.conversation), reply)
         == if !Started(log, reply.conversation, reply.thread) then Some(ThreadNotFound)
            else if LastWordIn(log, reply.conversation, reply.thread, reply.author) then None
            else Some(ReplyForbidden)
  {
    if Started(log, reply.conversation, reply.thread) {
      ThreadFound(log, reply.conversation, reply.thread);
      ParticipantsAreLastWord(log, reply.conversation, reply.thread, reply.author);
    } else {
      ThreadAbsent(log, reply.conversation, reply.thread);
    }
  }

  /** After a removal with no later addition, every reply by that participant to that thread is refused. */
  lemma RemovedMayNotReply(log: seq<Event>, i: nat, reply: Event)
    requires WellFormed(log) && i < |log| && reply.MessagePosted?
    requires log[i].ParticipantRemoved? && Concerns(log[i], reply.conversation, reply.thread)
    requires log[i].participant == reply.author
    requires forall j :: i < j < |log| && log[j].ParticipantAdded? && Concerns(log[j], reply.conversation, reply.thread)
               ==> log[j].participant != reply.author
    ensures AuthorizeReply(View(log, reply.conversation), reply) == Some(ReplyForbidden)
  {
    var c, t := reply.conversation, reply.thread;
    assert Grounded(log[..i], log[i]);
    var n :| 0 <= n < i && Needs(log[i], log[..i][n]);
    assert Starts(log[n], c, t);
    ReplyAuthorised(log, reply);
    assert forall k :: n < k < |log| ==> !Clash(log[n], log[k]);
    forall k | 0 <= k < |log| && Grants(log[k], c, t, reply.author)
      ensures exists j :: k < j < |log| && Revokes(log[j], c, t, reply.author)
    {
      assert Revokes(log[i], c, t, reply.author);
    }
  }
}
