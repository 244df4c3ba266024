/** The conversation domain: its five events, the read model's views, and the rules a command has
    to pass before it may raise an event. A nil pointer field of a Go params struct is `None`. */
module Domain {
  import opened Collections

  type ConversationId = string
  type ThreadId = string
  type MessageId = string
  type ParticipantId = string
  type Sequence = nat

  // A point in time, ordered; ZERO_TIME is Go's zero time.Time, what a missing map entry reads as.
  type Time = int
  const ZERO_TIME: Time := 0

  const PLACEHOLDER_CREATOR := "placeholder-creator"

  datatype Event =
    | ConversationCreated(conversation: ConversationId, creator: string, url: string, at: Time)
    | ThreadStarted(conversation: ConversationId, thread: ThreadId, title: string,
                    author: ParticipantId, recipients: seq<ParticipantId>, at: Time)
    | MessagePosted(conversation: ConversationId, thread: ThreadId, message: MessageId,
                    author: ParticipantId, text: string, at: Time)
    | ParticipantAdded(conversation: ConversationId, thread: ThreadId, participant: ParticipantId, at: Time)
    | ParticipantRemoved(conversation: ConversationId, thread: ThreadId, participant: ParticipantId, at: Time)

  /** An event with its sequence: the source's EventRecord and its OutboxEntry alike. */
  datatype Entry = Entry(sequence: Sequence, event: Event)

  /** Events as entries, numbered on from a log of n events. */
  function EntriesFrom(n: nat, events: seq<Event>): (r: seq<Entry>)
    ensures |r| == |events|
    ensures forall i :: 0 <= i < |r| ==> r[i] == Entry(n + i + 1, events[i])
  {
    seq(|events|, i requires 0 <= i < |events| => Entry(n + i + 1, events[i]))
  }

  lemma EntriesSnoc(n: nat, events: seq<Event>, e: Event)
    ensures EntriesFrom(n, events + [e]) == EntriesFrom(n, events) + [Entry(n + |events| + 1, e)]
  {
  }

  lemma EntriesHead(n: nat, events: seq<Event>)
    requires events != []
    ensures EntriesFrom(n, events)[0] == Entry(n + 1, events[0])
    ensures EntriesFrom(n, events)[1..] == EntriesFrom(n + 1, events[1..])
  {
  }

  function EventsOf(records: seq<Entry>): (r: seq<Event>)
    ensures |r| == |records| && forall i :: 0 <= i < |r| ==> r[i] == records[i].event
  {
    seq(|records|, i requires 0 <= i < |records| => records[i].event)
  }

  datatype Error =
    | ResourceUrlRequired | ThreadTitleRequired | AuthorRequired | MessageRequired | RecipientsRequired
    | DuplicateRecipient | AuthorIsRecipient | ParticipantIdRequired
    | ConversationNotFound | ProjectionNotCaughtUp | ThreadNotFound | ReplyForbidden

  datatype MessageView = MessageView(author: ParticipantId, text: string, postedAt: Time)
  datatype ThreadView =
    ThreadView(id: ThreadId, title: string, participants: seq<ParticipantId>, messages: seq<MessageView>)
  datatype ConversationView = ConversationView(id: ConversationId, url: string, threads: seq<ThreadView>)

  /** A started thread's participants: the author, then the recipients. */
  function Members(e: Event): seq<ParticipantId>
    requires e.ThreadStarted?
  {
    [e.author] + e.recipients
  }

  /** The position of the first thread called id, or |threads|. */
  function FindThread(threads: seq<ThreadView>, id: ThreadId): (i: nat)
    ensures i <= |threads|
    ensures i < |threads| ==> threads[i].id == id
    ensures forall j :: 0 <= j < i ==> threads[j].id != id
  {
    if threads == [] || threads[0].id == id then 0 else 1 + FindThread(threads[1..], id)
  }

  /** GetConversation: `after` is the sequence the caller waits for, `checkpoint` what the projection
      reported first, `read` what its Get returned then. */
  function GetConversation(after: Option<int>, checkpoint: Sequence, read: Result<ConversationView, Error>)
    : Result<ConversationView, Error>
  {
    if after.Some? && checkpoint < after.value then Failure(ProjectionNotCaughtUp) else read
  }

  // Recipients

  function RecipientsOf(raw: seq<string>): Result<seq<ParticipantId>, Error> {
    if NoDuplicates(raw) then Success(raw) else Failure(DuplicateRecipient)
  }

  method NewRecipients(raw: seq<string>) returns (r: Result<seq<ParticipantId>, Error>)
    ensures r == RecipientsOf(raw)
    ensures r.Success? <==> NoDuplicates(raw)
    ensures r.Success? ==> r.value == raw
    ensures r.Failure? ==> r.error == DuplicateRecipient
  {
    var seen: set<ParticipantId> := {};
    var recipients: seq<ParticipantId> := [];
    for i := 0 to |raw|
      invariant recipients == raw[..i] && NoDuplicates(recipients)
      invariant forall id :: id in seen <==> id in recipients
    {
      if raw[i] in seen {
        var j :| 0 <= j < i && raw[j] == raw[i];
        return Failure(DuplicateRecipient);
      }
      seen := seen + {raw[i]};
      recipients := recipients + [raw[i]];
    }
    assert raw[..|raw|] == raw;
    return Success(recipients);
  }

  // Starting threads and conversations

  datatype ThreadParams = ThreadParams(
    conversation: ConversationId, thread: ThreadId, message: MessageId,
    title: Option<string>, author: Option<string>, recipients: Option<seq<string>>, text: Option<string>,
    at: Time)

  function NewThread(p: ThreadParams): Result<(Event, Event), Error> {
    if p.title.None? then Failure(ThreadTitleRequired)
    else if p.author.None? then Failure(AuthorRequired)
    else if p.text.None? then Failure(MessageRequired)
    else if p.recipients.None? then Failure(RecipientsRequired)
    else
      match RecipientsOf(p.recipients.value)
      case Failure(error) => Failure(error)
      case Success(recipients) =>
        if p.author.value in recipients then Failure(AuthorIsRecipient)
        else Success((
          ThreadStarted(p.conversation, p.thread, p.title.value, p.author.value, recipients, p.at),
          MessagePosted(p.conversation, p.thread, p.message, p.author.value, p.text.value, p.at)))
  }

  function AddThread(p: ThreadParams): Result<seq<Event>, Error> {
    match NewThread(p)
    case Failure(error) => Failure(error)
    case Success((started, posted)) => Success([started, posted])
  }

  function StartConversation(url: Option<string>, p: ThreadParams): Result<seq<Event>, Error> {
    if url.None? then Failure(ResourceUrlRequired)
    else
      match NewThread(p)
      case Failure(error) => Failure(error)
      case Success((started, posted)) =>
        Success([ConversationCreated(p.conversation, PLACEHOLDER_CREATOR, url.value, p.at), started, posted])
  }

  // Replying

  datatype ReplyParams = ReplyParams(
    conversation: ConversationId, thread: ThreadId, message: MessageId,
    author: Option<string>, text: Option<string>, at: Time)

  function ValidateReply(p: ReplyParams): Result<Event, Error> {
    if p.author.None? then Failure(AuthorRequired)
    else if p.text.None? then Failure(MessageRequired)
    else Success(MessagePosted(p.conversation, p.thread, p.message, p.author.value, p.text.value, p.at))
  }

  /** None when the reply may be appended. */
  function AuthorizeReply(view: ConversationView, reply: Event): Option<Error>
    requires reply.MessagePosted?
  {
    var i := FindThread(view.threads, reply.thread);
    if i == |view.threads| then Some(ThreadNotFound)
    else if reply.author !in view.threads[i].participants then Some(ReplyForbidden)
    else None
  }

  /** The message a thread is started with. */
  predicate Opens(started: Event, posted: Event) {
    && started.ThreadStarted? && posted.MessagePosted?
    && posted.conversation == started.conversation && posted.thread == started.thread
    && posted.author == started.author
  }

  /** A conversation comes with its first thread right after it, a thread with its opening message. */
  predicate WholeAt(batch: seq<Event>, i: nat)
    requires i < |batch|
  {
    && (batch[i].ConversationCreated? ==>
          i + 1 < |batch| && batch[i + 1].ThreadStarted? && batch[i + 1].conversation == batch[i].conversation)
    && (batch[i].ThreadStarted? ==> i + 1 < |batch| && Opens(batch[i], batch[i + 1]))
  }

  predicate WholeBatch(batch: seq<Event>) {
    forall i :: 0 <= i < |batch| ==> WholeAt(batch, i)
  }

  /** A started thread's participant list never repeats anyone, whatever the caller sent. */
  predicate WellStarted(e: Event) {
    e.ThreadStarted? ==> NoDuplicates(Members(e))
  }

  lemma StartedMembersDistinct(p: ThreadParams)
    ensures NewThread(p).Success? ==> WellStarted(NewThread(p).value.0)
  {
    if NewThread(p).Success? {
      var started := NewThread(p).value.0;
      forall i, j | 0 <= i < j < |Members(started)| ensures Members(started)[i] != Members(started)[j] {
        assert Members(started)[j] == started.recipients[j - 1];
      }
    }
  }
}
