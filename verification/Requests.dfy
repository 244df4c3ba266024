/** What callers ask for and what they get, said from the log alone: which rule a request breaks first,
    which events an accepted one raises, and what its conversation looks like afterwards. */
module Requests {
  import opened Collections
  import opened Domain
  import opened ReadModel
  import opened History
  import Aggregate
  import MemoryRefinement

  datatype Request =
    | StartRequest(url: Option<string>, thread: ThreadParams)
    | ThreadRequest(thread: ThreadParams)
    | ReplyRequest(reply: ReplyParams)
    | AddRequest(membership: Aggregate.ManageParams)
    | RemoveRequest(membership: Aggregate.ManageParams)

  function ConversationOf(r: Request): ConversationId {
    match r
    case StartRequest(_, p) => p.conversation
    case ThreadRequest(p) => p.conversation
    case ReplyRequest(p) => p.conversation
    case AddRequest(p) => p.conversation
    case RemoveRequest(p) => p.conversation
  }

  // Rules

  datatype Rule = Rule(broken: bool, error: Error)

  /** The error is that of the first broken rule; there is none exactly when no rule is broken. */
  ghost predicate Verdict(rules: seq<Rule>, error: Option<Error>) {
    match error
    case None => forall i :: 0 <= i < |rules| ==> !rules[i].broken
    case Some(e) => exists i :: FirstBroken(rules, i) && rules[i].error == e
  }

  ghost predicate FirstBroken(rules: seq<Rule>, i: int) {
    0 <= i < |rules| && rules[i].broken && forall j :: 0 <= j < i ==> !rules[j].broken
  }

  function ErrorOf<T>(r: Result<T, Error>): Option<Error> {
    if r.Failure? then Some(r.error) else None
  }

  predicate Repeats(ids: seq<ParticipantId>) {
    exists i, j :: 0 <= i < j < |ids| && ids[i] == ids[j]
  }

  function ThreadRules(p: ThreadParams): seq<Rule> {
    [Rule(p.title.None?, ThreadTitleRequired),
     Rule(p.author.None?, AuthorRequired),
     Rule(p.text.None?, MessageRequired),
     Rule(p.recipients.None?, RecipientsRequired),
     Rule(p.recipients.Some? && Repeats(p.recipients.value), DuplicateRecipient),
     Rule(p.recipients.Some? && p.author.Some? && p.author.value in p.recipients.value, AuthorIsRecipient)]
  }

  ghost predicate HasThreads(log: seq<Event>, c: ConversationId) {
    exists t :: Started(log, c, t)
  }

  /** What a request has to satisfy against a log, in the order it is looked at. */
  ghost function Rules(log: seq<Event>, r: Request): seq<Rule> {
    match r
    case StartRequest(url, p) => [Rule(url.None?, ResourceUrlRequired)] + ThreadRules(p)
    case ThreadRequest(p) => ThreadRules(p) + [Rule(!HasThreads(log, p.conversation), ConversationNotFound)]
    case ReplyRequest(p) => ReplyRules(log, p)
    case AddRequest(p) => MembershipRules(log, p)
    case RemoveRequest(p) => MembershipRules(log, p)
  }

  ghost function ReplyRules(log: seq<Event>, p: ReplyParams): seq<Rule> {
    [Rule(p.author.None?, AuthorRequired),
     Rule(p.text.None?, MessageRequired),
     Rule(!HasThreads(log, p.conversation), ConversationNotFound),
     Rule(!Started(log, p.conversation, p.thread), ThreadNotFound),
     Rule(p.author.Some? && p.author.value !in Participants(log, p.conversation, p.thread), ReplyForbidden)]
  }

  ghost function MembershipRules(log: seq<Event>, p: Aggregate.ManageParams): seq<Rule> {
    [Rule(p.participant == "", ParticipantIdRequired),
     Rule(forall i :: 0 <= i < |log| ==> log[i].conversation != p.conversation, ConversationNotFound),
     Rule(!Started(log, p.conversation, p.thread), ThreadNotFound)]
  }

  /** The request is accepted and changes something: adding who is held already, or removing who is not,
      is accepted and changes nothing. */
  ghost predicate Effective(log: seq<Event>, r: Request) {
    && Filled(r) && Verdict(Rules(log, r), None)
    && (r.AddRequest? ==>
          r.membership.participant !in Aggregate.Held(log, r.membership.conversation, r.membership.thread))
    && (r.RemoveRequest? ==>
          r.membership.participant in Aggregate.Held(log, r.membership.conversation, r.membership.thread))
  }

  // Events and views

  predicate ThreadFilled(p: ThreadParams) {
    p.title.Some? && p.author.Some? && p.text.Some? && p.recipients.Some?
  }

  /** Every field is there. */
  predicate Filled(r: Request) {
    match r
    case StartRequest(url, p) => url.Some? && ThreadFilled(p)
    case ThreadRequest(p) => ThreadFilled(p)
    case ReplyRequest(p) => p.author.Some? && p.text.Some?
    case _ => true
  }

  function Opening(p: ThreadParams): seq<Event>
    requires ThreadFilled(p)
  {
    [ThreadStarted(p.conversation, p.thread, p.title.value, p.author.value, p.recipients.value, p.at),
     MessagePosted(p.conversation, p.thread, p.message, p.author.value, p.text.value, p.at)]
  }

  function Raises(r: Request): seq<Event>
    requires Filled(r)
  {
    match r
    case StartRequest(url, p) =>
      [ConversationCreated(p.conversation, "placeholder-creator", url.value, p.at)] + Opening(p)
    case ThreadRequest(p) => Opening(p)
    case ReplyRequest(p) =>
      [MessagePosted(p.conversation, p.thread, p.message, p.author.value, p.text.value, p.at)]
    case AddRequest(p) => [ParticipantAdded(p.conversation, p.thread, p.participant, p.at)]
    case RemoveRequest(p) => [ParticipantRemoved(p.conversation, p.thread, p.participant, p.at)]
  }

  function OpenedThread(p: ThreadParams): ThreadView
    requires ThreadFilled(p)
  {
    ThreadView(p.thread, p.title.value, [p.author.value] + p.recipients.value,
               [MessageView(p.author.value, p.text.value, p.at)])
  }

  /** What the request makes of one thread. */
  function ThreadAfter(thread: ThreadView, r: Request): ThreadView
    requires Filled(r)
  {
    match r
    case ReplyRequest(p) =>
      if thread.id != p.thread then thread
      else thread.(messages := thread.messages + [MessageView(p.author.value, p.text.value, p.at)])
    case AddRequest(p) =>
      if thread.id != p.thread then thread else thread.(participants := thread.participants + [p.participant])
    case RemoveRequest(p) =>
      if thread.id != p.thread then thread
      else thread.(participants := Without(thread.participants, p.participant))
    case _ => thread
  }

  /** What the request makes of its conversation. */
  function ViewAfter(before: ConversationView, r: Request): ConversationView
    requires Filled(r)
  {
    match r
    case StartRequest(url, p) => ConversationView(p.conversation, url.value, [OpenedThread(p)])
    case ThreadRequest(p) => before.(threads := before.threads + [OpenedThread(p)])
    case _ =>
      before.(threads :=
        seq(|before.threads|, j requires 0 <= j < |before.threads| => ThreadAfter(before.threads[j], r)))
  }

  // Deciding

  lemma Breaks(rules: seq<Rule>, i: nat)
    requires i < |rules| && rules[i].broken && forall j :: 0 <= j < i ==> !rules[j].broken
    ensures Verdict(rules, Some(rules[i].error))
  {
    assert FirstBroken(rules, i);
  }

  /** No request has two verdicts. */
  lemma OneVerdict(rules: seq<Rule>, a: Option<Error>, b: Option<Error>)
    requires Verdict(rules, a) && Verdict(rules, b)
    ensures a == b
  {
    if a.Some? && b.Some? {
      var i :| FirstBroken(rules, i) && rules[i].error == a.value;
      var j :| FirstBroken(rules, j) && rules[j].error == b.value;
      assert i == j;
    }
  }

  lemma ThreadDecided(p: ThreadParams)
    ensures Verdict(ThreadRules(p), ErrorOf(Domain.NewThread(p)))
    ensures NewThread(p).Success? ==>
      ThreadFilled(p) && NewThread(p).value == (Opening(p)[0], Opening(p)[1])
  {
    var rules := ThreadRules(p);
    if p.title.None? {
      Breaks(rules, 0);
    } else if p.author.None? {
      Breaks(rules, 1);
    } else if p.text.None? {
      Breaks(rules, 2);
    } else if p.recipients.None? {
      Breaks(rules, 3);
    } else if Repeats(p.recipients.value) {
      Breaks(rules, 4);
    } else if p.author.value in p.recipients.value {
      Breaks(rules, 5);
    }
  }

  lemma OneMoreRule(rules: seq<Rule>, rule: Rule, error: Option<Error>)
    requires Verdict(rules, error)
    ensures Verdict(rules + [rule], if error.None? && rule.broken then Some(rule.error) else error)
    ensures !rule.broken ==> Verdict([rule] + rules, error)
    ensures rule.broken ==> Verdict([rule] + rules, Some(rule.error))
  {
    if error.Some? {
      var i :| FirstBroken(rules, i) && rules[i].error == error.value;
      assert FirstBroken(rules + [rule], i);
      if !rule.broken {
        assert ([rule] + rules)[i + 1] == rules[i];
        forall j | 0 <= j < i + 1 ensures !([rule] + rules)[j].broken {
          assert j > 0 ==> ([rule] + rules)[j] == rules[j - 1];
        }
        assert FirstBroken([rule] + rules, i + 1);
      }
    } else if rule.broken {
      Breaks(rules + [rule], |rules|);
    }
    if rule.broken {
      Breaks([rule] + rules, 0);
    }
  }

  /** Starting a conversation asks for the url first and for the thread's fields in order, and raises the
      three events just as they were asked for. */
  lemma StartDecided(log: seq<Event>, url: Option<string>, p: ThreadParams)
    ensures Verdict(Rules(log, StartRequest(url, p)), ErrorOf(Domain.StartConversation(url, p)))
    ensures Domain.StartConversation(url, p).Success? ==>
      Filled(StartRequest(url, p)) && Domain.StartConversation(url, p).value == Raises(StartRequest(url, p))
  {
    ThreadDecided(p);
    OneMoreRule(ThreadRules(p), Rule(url.None?, ResourceUrlRequired), ErrorOf(NewThread(p)));
  }

  /** Adding a thread checks its fields before it asks whether the conversation exists. */
  lemma ThreadAdded(log: seq<Event>, p: ThreadParams)
    ensures var r := Domain.AddThread(p);
            && Verdict(Rules(log, ThreadRequest(p)),
                       if r.Success? && !HasThreads(log, p.conversation) then Some(ConversationNotFound)
                       else ErrorOf(r))
            && (r.Success? ==> ThreadFilled(p) && r.value == Raises(ThreadRequest(p)))
  {
    ThreadDecided(p);
    OneMoreRule(ThreadRules(p), Rule(!HasThreads(log, p.conversation), ConversationNotFound), ErrorOf(NewThread(p)));
  }

  lemma {:induction false} ThreadsIffStarted(log: seq<Event>, c: ConversationId)
    ensures HasThreads(log, c) <==> StartsOf(log, c) != []
  {
    if StartsOf(log, c) != [] {
      var i := StartsOf(log, c)[0];
      assert Starts(log[i], c, log[i].thread);
      assert Started(log, c, log[i].thread);
    }
    if t :| Started(log, c, t) {
      var i :| 0 <= i < |log| && Starts(log[i], c, t);
      StartsFound(log, c, i);
    }
  }

  /** A reply checks its fields, then the conversation, the thread and the author, against the view of the log. */
  lemma ReplyDecided(log: seq<Event>, p: ReplyParams)
    requires WellFormed(log)
    ensures var r := ValidateReply(p);
            && Verdict(Rules(log, ReplyRequest(p)),
                       if r.Failure? then Some(r.error)
                       else if StartsOf(log, p.conversation) == [] then Some(ConversationNotFound)
                       else AuthorizeReply(View(log, p.conversation), r.value))
            && (r.Success? ==> Filled(ReplyRequest(p)) && [r.value] == Raises(ReplyRequest(p)))
  {
    ThreadsIffStarted(log, p.conversation);
    if p.author.None? {
      Breaks(ReplyRules(log, p), 0);
    } else if p.text.None? {
      Breaks(ReplyRules(log, p), 1);
    } else if !HasThreads(log, p.conversation) {
      Breaks(ReplyRules(log, p), 2);
    } else {
      ReplyChecked(log, p, ValidateReply(p).value);
    }
  }

  lemma ReplyChecked(log: seq<Event>, p: ReplyParams, reply: Event)
    requires WellFormed(log) && HasThreads(log, p.conversation) && ValidateReply(p) == Success(reply)
    ensures Verdict(ReplyRules(log, p), AuthorizeReply(View(log, p.conversation), reply))
  {
    Authorised(log, reply);
    if !Started(log, p.conversation, p.thread) {
      Breaks(ReplyRules(log, p), 3);
    } else if p.author.value !in Participants(log, p.conversation, p.thread) {
      Breaks(ReplyRules(log, p), 4);
    }
  }

  lemma Authorised(log: seq<Event>, reply: Event)
    requires WellFormed(log) && reply.MessagePosted?
    ensures AuthorizeReply(View(log, reply.conversation), reply)
         == if !Started(log, reply.conversation, reply.thread) then Some(ThreadNotFound)
            else if reply.author in Participants(log, reply.conversation, reply.thread) then None
            else Some(ReplyForbidden)
  {
    if Started(log, reply.conversation, reply.thread) {
      ThreadFound(log, reply.conversation, reply.thread);
    } else {
      ThreadAbsent(log, reply.conversation, reply.thread);
    }
  }

  /** What a membership command decides from the events listed for its conversation. */
  function MembershipDecision(own: seq<Event>, add: bool, p: Aggregate.ManageParams): Result<Option<Event>, Error> {
    if Aggregate.Validate(p).Some? then Failure(Aggregate.Validate(p).value)
    else if own == [] then Failure(ConversationNotFound)
    else if add then Aggregate.AddParticipant(Aggregate.Replay(own), p)
    else Aggregate.RemoveParticipant(Aggregate.Replay(own), p)
  }

  function MembershipRequest(add: bool, p: Aggregate.ManageParams): Request {
    if add then AddRequest(p) else RemoveRequest(p)
  }

  lemma {:induction false} NothingOwn(log: seq<Event>, c: ConversationId)
    ensures Aggregate.Own(log, c) == [] <==> forall i :: 0 <= i < |log| ==> log[i].conversation != c
  {
    if log != [] {
      var init := log[..|log| - 1];
      NothingOwn(init, c);
      assert forall i :: 0 <= i < |init| ==> init[i] == log[i];
    }
  }

  lemma MembershipVerdict(log: seq<Event>, add: bool, p: Aggregate.ManageParams)
    requires WellFormed(log)
    ensures Verdict(MembershipRules(log, p),
                    ErrorOf(MembershipDecision(Aggregate.Own(log, p.conversation), add, p)))
  {
    var rules := MembershipRules(log, p);
    NothingOwn(log, p.conversation);
    if p.participant == "" {
      Breaks(rules, 0);
    } else if Aggregate.Own(log, p.conversation) == [] {
      Breaks(rules, 1);
    } else if !Started(log, p.conversation, p.thread) {
      Aggregate.ReplayHolds(log, p.conversation, p.thread);
      Breaks(rules, 2);
    } else {
      Aggregate.AggregateOf(log, p.conversation, p.thread);
      NoneBroken(log, add, p);
    }
  }

  /** A membership command checks the id, the conversation and the thread; then it raises its event unless
      the aggregate has the participant as asked already. */
  lemma MembershipDecided(log: seq<Event>, add: bool, p: Aggregate.ManageParams)
    requires WellFormed(log)
    ensures var r, request := MembershipDecision(Aggregate.Own(log, p.conversation), add, p), MembershipRequest(add, p);
            && Verdict(Rules(log, request), ErrorOf(r))
            && (r.Success? ==> r.value == if Effective(log, request) then Some(Raises(request)[0]) else None)
  {
    MembershipVerdict(log, add, p);
    if MembershipDecision(Aggregate.Own(log, p.conversation), add, p).Success? {
      Aggregate.ReplayHolds(log, p.conversation, p.thread);
      Aggregate.AggregateOf(log, p.conversation, p.thread);
      NoneBroken(log, add, p);
    }
  }

  lemma NoneBroken(log: seq<Event>, add: bool, p: Aggregate.ManageParams)
    requires p.participant != "" && Aggregate.Own(log, p.conversation) != []
    requires Started(log, p.conversation, p.thread)
    ensures Verdict(MembershipRules(log, p), None)
    ensures Effective(log, MembershipRequest(add, p))
       <==> if add then p.participant !in Aggregate.Held(log, p.conversation, p.thread)
            else p.participant in Aggregate.Held(log, p.conversation, p.thread)
  {
    NothingOwn(log, p.conversation);
  }

  lemma Refused(rules: seq<Rule>, error: Option<Error>)
    requires Verdict(rules, error)
    ensures Verdict(rules, None) <==> error == None
  {
    if Verdict(rules, None) {
      OneVerdict(rules, error, None);
    }
  }

  // The same, for each command

  lemma StartEffective(log: seq<Event>, url: Option<string>, p: ThreadParams)
    ensures var r := Domain.StartConversation(url, p);
            && (Effective(log, StartRequest(url, p)) <==> r.Success?)
            && (r.Success? ==> r.value == Raises(StartRequest(url, p)))
  {
    StartDecided(log, url, p);
    Refused(Rules(log, StartRequest(url, p)), ErrorOf(Domain.StartConversation(url, p)));
  }

  lemma ThreadEffective(log: seq<Event>, p: ThreadParams)
    ensures var r := Domain.AddThread(p);
            && (Effective(log, ThreadRequest(p)) <==> r.Success? && HasThreads(log, p.conversation))
            && (r.Success? ==> ThreadFilled(p) && r.value == Raises(ThreadRequest(p)))
  {
    ThreadAdded(log, p);
    var decided := Domain.AddThread(p);
    Refused(Rules(log, ThreadRequest(p)),
            if decided.Success? && !HasThreads(log, p.conversation) then Some(ConversationNotFound)
            else ErrorOf(decided));
  }

  lemma ReplyEffective(log: seq<Event>, p: ReplyParams)
    requires WellFormed(log)
    ensures var r := ValidateReply(p);
            && (Effective(log, ReplyRequest(p))
                <==> && r.Success? && StartsOf(log, p.conversation) != []
                     && AuthorizeReply(View(log, p.conversation), r.value) == None)
            && (r.Success? ==> Filled(ReplyRequest(p)) && [r.value] == Raises(ReplyRequest(p)))
  {
    ReplyDecided(log, p);
    var reply := ValidateReply(p);
    Refused(ReplyRules(log, p),
            if reply.Failure? then Some(reply.error)
            else if StartsOf(log, p.conversation) == [] then Some(ConversationNotFound)
            else AuthorizeReply(View(log, p.conversation), reply.value));
  }

  lemma MembershipEffective(log: seq<Event>, add: bool, p: Aggregate.ManageParams)
    requires WellFormed(log)
    ensures var r, request := MembershipDecision(Aggregate.Own(log, p.conversation), add, p), MembershipRequest(add, p);
            && (Effective(log, request) <==> r.Success? && r.value.Some?)
            && (r.Success? && r.value.Some? ==> [r.value.value] == Raises(request))
  {
    MembershipDecided(log, add, p);
    Refused(MembershipRules(log, p), ErrorOf(MembershipDecision(Aggregate.Own(log, p.conversation), add, p)));
  }

  predicate Acceptable(p: ThreadParams) {
    && ThreadFilled(p) && !Repeats(p.recipients.value) && p.author.value !in p.recipients.value
  }

  lemma AcceptableIsEffective(log: seq<Event>, url: string, p: ThreadParams)
    requires Acceptable(p)
    ensures Effective(log, StartRequest(Some(url), p))
    ensures Effective(log, ThreadRequest(p)) <==> HasThreads(log, p.conversation)
  {
    StartEffective(log, Some(url), p);
    ThreadEffective(log, p);
  }

  // What an accepted request shows

  /** Whoever a thread is started with is its author or one of its recipients, in that order. */
  lemma StartedWith(log: seq<Event>, e: Event, x: ParticipantId)
    requires e.ThreadStarted?
    ensures var members := Participants(log + [e], e.conversation, e.thread);
            && members == [e.author] + e.recipients == Aggregate.Held(log + [e], e.conversation, e.thread)
            && (x in members <==> x == e.author || x in e.recipients)
  {
    Snoc(log, e, e.conversation, e.thread);
    Aggregate.OwnSnoc(log, e, e.conversation);
  }

  /** A thread opened by a request has its author and then its recipients as participants, for readers and
      for the aggregate alike. */
  lemma OpenedMembers(log: seq<Event>, p: ThreadParams)
    requires ThreadFilled(p) && WellFormed(log + Opening(p))
    ensures var log', c, t := log + Opening(p), p.conversation, p.thread;
            && Participants(log', c, t) == [p.author.value] + p.recipients.value
            && Aggregate.MembersOf(Aggregate.Replay(Aggregate.Own(log', c)), t) == [p.author.value] + p.recipients.value
  {
    var log', started, posted := log + Opening(p), Opening(p)[0], Opening(p)[1];
    assert log' == log + [started] + [posted];
    StartedWith(log, started, p.author.value);
    Snoc(log + [started], posted, p.conversation, p.thread);
    Aggregate.OwnSnoc(log + [started], posted, p.conversation);
    Aggregate.ReplayHolds(log', p.conversation, p.thread);
  }

  /** Later on a participant is whoever was the author or a recipient and has an addition after every
      removal, or was neither and has an addition with no removal after it. */
  lemma StarterLater(log: seq<Event>, i: nat, n: nat, x: ParticipantId)
    requires WellFormed(log) && i < n <= |log| && log[i].ThreadStarted?
    ensures var e := log[i];
            x in Participants(log[..n], e.conversation, e.thread)
            <==> if x == e.author || x in e.recipients then KeptIn(log, i + 1, n, e.conversation, e.thread, x)
                 else LetIn(log, i + 1, n, e.conversation, e.thread, x)
  {
    var c, t := log[i].conversation, log[i].thread;
    assert log[..i + 1] == log[..i] + [log[i]];
    StartedWith(log[..i], log[i], x);
    assert Starts(log[..i + 1][i], c, t);
    ParticipantLater(log, c, t, x, i + 1, n);
    assert LaterIn(log, i + 1, n, c, t, x);
  }

  /** So says any view torn over three prefixes of which the second has the start. */
  lemma TornStarter(log: seq<Event>, u: nat, k: nat, m: nat, n: nat, x: ParticipantId)
    requires WellFormed(log) && u <= |log| && k <= |log| && m <= |log| && n < k && log[n].ThreadStarted?
    ensures var e, threads := log[n], TornView(log, log[n].conversation, u, k, m).threads;
            var t := FindThread(threads, e.thread);
            && t < |threads|
            && (x in threads[t].participants
                <==> if x == e.author || x in e.recipients then KeptIn(log, n + 1, k, e.conversation, e.thread, x)
                     else LetIn(log, n + 1, k, e.conversation, e.thread, x))
  {
    var c, t := log[n].conversation, log[n].thread;
    StarterLater(log, n, k, x);
    WellFormedPrefix(log, k);
    assert Starts(log[..k][n], c, t);
    ThreadFound(log[..k], c, t);
    SameThread(TornView(log, c, u, k, m).threads, Threads(log[..k], c), t);
  }

  lemma OpeningShows(log: seq<Event>, p: ThreadParams)
    requires ThreadFilled(p) && WellFormed(log + Opening(p))
    ensures View(log + Opening(p), p.conversation)
         == View(log, p.conversation).(threads := Threads(log, p.conversation) + [OpenedThread(p)])
  {
    var started, posted := Opening(p)[0], Opening(p)[1];
    assert log + Opening(p) == log + [started] + [posted];
    WellFormedSnoc(log + [started], posted);
    ThreadFoundLast(log, started);
    OpeningPosted(log + [started], Threads(log, p.conversation), p);
    SameUrl(log, started, posted);
  }

  lemma SameUrl(log: seq<Event>, started: Event, posted: Event)
    requires started.ThreadStarted? && posted.MessagePosted?
    ensures Url(log + [started] + [posted], started.conversation) == Url(log, started.conversation)
  {
    Snoc(log, started, started.conversation, "");
    Snoc(log + [started], posted, started.conversation, "");
  }

  lemma OpeningPosted(log: seq<Event>, before: seq<ThreadView>, p: ThreadParams)
    requires ThreadFilled(p) && WellFormed(log + [Opening(p)[1]])
    requires Threads(log, p.conversation)
          == before + [ThreadView(p.thread, p.title.value, [p.author.value] + p.recipients.value, [])]
    requires FindThread(Threads(log, p.conversation), p.thread) == |before|
    ensures Threads(log + [Opening(p)[1]], p.conversation) == before + [OpenedThread(p)]
  {
    var posted, ts := Opening(p)[1], Threads(log, p.conversation);
    ChangeTarget(log, posted);
    ChangeSnoc(log, posted);
    assert ThreadStep(ts[|before|], posted, p.conversation) == OpenedThread(p);
  }

  /** A thread just started is the last of its conversation, and not there before. */
  lemma ThreadFoundLast(log: seq<Event>, e: Event)
    requires WellFormed(log + [e]) && e.ThreadStarted?
    ensures var ts := Threads(log + [e], e.conversation);
            ts == Threads(log, e.conversation) + [ThreadView(e.thread, e.title, [e.author] + e.recipients, [])]
            && FindThread(ts, e.thread) == |ts| - 1
  {
    StartSnoc(log, e);
    StartedWith(log, e, e.author);
    WellFormedSnoc(log, e);
    assert !Started(log, e.conversation, e.thread);
    ThreadAbsent(log, e.conversation, e.thread);
    var ts := Threads(log + [e], e.conversation);
    assert ts[|ts| - 1].id == e.thread;
    assert forall j :: 0 <= j < |ts| - 1 ==> ts[j] == Threads(log, e.conversation)[j];
  }

  lemma CreationShows(log: seq<Event>, created: Event)
    requires WellFormed(log + [created]) && created.ConversationCreated?
    ensures View(log + [created], created.conversation) == ConversationView(created.conversation, created.url, [])
  {
    var c := created.conversation;
    WellFormedSnoc(log, created);
    Snoc(log, created, c, "");
    if StartsOf(log, c) != [] {
      MemoryRefinement.StartedInView(log, c);
      assert false;
    }
  }

  lemma StartShows(log: seq<Event>, url: string, p: ThreadParams)
    requires ThreadFilled(p) && WellFormed(log + Raises(StartRequest(Some(url), p)))
    ensures View(log + Raises(StartRequest(Some(url), p)), p.conversation)
         == ConversationView(p.conversation, url, [OpenedThread(p)])
  {
    var created := Raises(StartRequest(Some(url), p))[0];
    var first := log + [created];
    assert log + Raises(StartRequest(Some(url), p)) == first + Opening(p);
    WellFormedPrefix(first + Opening(p), |first|);
    assert (first + Opening(p))[..|first|] == first;
    CreationShows(log, created);
    OpeningShows(first, p);
  }

  lemma ChangeShows(log: seq<Event>, r: Request)
    requires !r.StartRequest? && !r.ThreadRequest? && Filled(r) && WellFormed(log + Raises(r))
    ensures View(log + Raises(r), ConversationOf(r)) == ViewAfter(View(log, ConversationOf(r)), r)
  {
    var c, e := ConversationOf(r), Raises(r)[0];
    assert Raises(r) == [e];
    Snoc(log, e, c, "");
    var ts, ts' := Threads(log, c), Threads(log + [e], c);
    forall j | 0 <= j < |ts| ensures ts'[j] == ThreadAfter(ts[j], r) {
      OldThreadsSnoc(log, e, c, j);
      ThreadStepIs(ts[j], r, e);
    }
    assert ts' == ViewAfter(View(log, c), r).threads;
  }

  lemma ThreadStepIs(thread: ThreadView, r: Request, e: Event)
    requires !r.StartRequest? && !r.ThreadRequest? && Filled(r) && Raises(r) == [e]
    ensures ThreadStep(thread, e, ConversationOf(r)) == ThreadAfter(thread, r)
  {
    assert thread.messages + [] == thread.messages;
  }

  /** What an accepted request shows, and where: its own conversation changes just so, and no other does. */
  lemma RequestShows(log: seq<Event>, r: Request, c: ConversationId)
    requires Filled(r) && WellFormed(log + Raises(r))
    ensures View(log + Raises(r), c) == if c == ConversationOf(r) then ViewAfter(View(log, c), r) else View(log, c)
  {
    if c != ConversationOf(r) {
      Elsewhere(log, Raises(r), c);
    } else {
      match r
      case StartRequest(url, p) => StartShows(log, url.value, p);
      case ThreadRequest(p) => OpeningShows(log, p);
      case _ => ChangeShows(log, r);
    }
  }

  lemma {:induction false} Elsewhere(log: seq<Event>, batch: seq<Event>, c: ConversationId)
    requires forall i :: 0 <= i < |batch| ==> batch[i].conversation != c
    ensures View(log + batch, c) == View(log, c)
  {
    if batch == [] {
      assert log + batch == log;
    } else {
      var init, e := batch[..|batch| - 1], batch[|batch| - 1];
      Elsewhere(log, init, c);
      assert log + batch == log + init + [e];
      ElsewhereSnoc(log + init, e, c);
      Snoc(log + init, e, c, "");
    }
  }

  /** Afterwards the conversation has a thread to show. */
  lemma RequestHasThread(log: seq<Event>, r: Request)
    requires Filled(r) && WellFormed(log + Raises(r))
    ensures StartsOf(log + Raises(r), ConversationOf(r)) != []
  {
    var c, log', n := ConversationOf(r), log + Raises(r), |log| + |Raises(r)| - 1;
    assert log'[n] == Raises(r)[|Raises(r)| - 1];
    assert Grounded(log'[..n], log'[n]);
    var i :| 0 <= i < n && Needs(log'[n], log'[..n][i]);
    StartsFound(log', c, i);
  }
}
