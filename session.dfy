/** A conversation: its identity, its owner and its growing message list. */
module Sessions {
  import opened Common
  import opened Messages

  /** The value of a session's fields at one moment. */
  datatype SessionState = SessionState(
    id: string,
    channelType: string,
    userId: string,
    messages: seq<Message>,
    createdAt: Instant,
    lastActiveAt: Instant)

  class Session {
    var id: string
    var channelType: string
    var userId: string
    var messages: seq<Message>
    var createdAt: Instant
    var lastActiveAt: Instant

    function State(): SessionState
      reads this
    {
      SessionState(id, channelType, userId, messages, createdAt, lastActiveAt)
    }

    /** Session(channelType, userId): the random UUID is the input `id`,
        and one clock reading `now` stamps both instants. */
    constructor (id: string, channelType: string, userId: string, now: Instant)
      ensures State() == SessionState(id, channelType, userId, [], now, now)
    {
      this.id := id;
      this.channelType := channelType;
      this.userId := userId;
      this.messages := [];
      this.createdAt := now;
      this.lastActiveAt := now;
    }

    /** The no-argument constructor followed by the setters that recovery
        calls: channel "recovered", user "unknown", both instants `now`. */
    constructor Recovered(id: string, now: Instant)
      ensures State() == SessionState(id, "recovered", "unknown", [], now, now)
    {
      this.id := id;
      this.channelType := "recovered";
      this.userId := "unknown";
      this.messages := [];
      this.createdAt := now;
      this.lastActiveAt := now;
    }

    /** addMessage: append at the end and mark the session active at `now`;
        identity, owner and creation time stay as they were. */
    method AddMessage(m: Message, now: Instant)
      modifies this`messages, this`lastActiveAt
      ensures State() == old(State()).(messages := old(messages) + [m], lastActiveAt := now)
    {
      messages := messages + [m];
      lastActiveAt := now;
    }
  }
}
