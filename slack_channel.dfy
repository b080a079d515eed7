/** The Slack channel (class SlackChannel): which inbound message events
    reach the agent, how bot mentions are stripped from their text, and the
    per-user session map. */
module SlackChannels {
  import opened Common
  import opened Messages
  import opened Sessions
  import opened SessionStores
  import opened AgentExecutors

  /** The fields of a Slack message event the handler reads; each may be
      null. */
  datatype MessageEvent = MessageEvent(
    user: Option<string>,
    text: Option<string>,
    channel: Option<string>,
    subtype: Option<string>,
    botId: Option<string>)

  /** What the filter makes of an event: ignored (only acknowledged), or
      accepted with its user, its cleaned text and its channel. */
  datatype Inbound = Ignored | Accepted(user: string, text: string, channel: Option<string>)

  /** A character of a user id in a mention tag: [A-Z0-9]. */
  predicate IsIdChar(c: char)
  {
    'A' <= c <= 'Z' || '0' <= c <= '9'
  }

  /** The length of the run of id characters at the front of `s`. */
  function IdRun(s: string): (n: nat)
    ensures n <= |s|
    ensures forall i :: 0 <= i < n ==> IsIdChar(s[i])
    ensures n < |s| ==> !IsIdChar(s[n])
  {
    if s != [] && IsIdChar(s[0]) then 1 + IdRun(s[1..]) else 0
  }

  /** The length of the run of \s characters at the front of `s`. */
  function SpaceRun(s: string): (n: nat)
    ensures n <= |s|
    ensures forall i :: 0 <= i < n ==> IsRegexSpace(s[i])
    ensures n < |s| ==> !IsRegexSpace(s[n])
  {
    if s != [] && IsRegexSpace(s[0]) then 1 + SpaceRun(s[1..]) else 0
  }

  /** The length of the match of <@[A-Z0-9]+>\s* at the front of `s`, or 0
      when there is none. Neither run can give back characters to let the
      rest match, so the greedy runs are the match. */
  function MentionAt(s: string): (n: nat)
    ensures n <= |s|
    ensures n > 0 ==> n >= 4 && s[0] == '<'
  {
    if 2 <= |s| && s[0] == '<' && s[1] == '@' then
      var k := IdRun(s[2..]);
      if 0 < k && 2 + k < |s| && s[2 + k] == '>' then 3 + k + SpaceRun(s[3 + k..]) else 0
    else 0
  }

  /** replaceAll("<@[A-Z0-9]+>\\s*", ""): scanning from the left, each
      mention and the \s characters after it are removed, and the scan goes
      on after the removed text without looking back. */
  function StripMentions(s: string): string
    decreases |s|
  {
    if s == [] then []
    else if MentionAt(s) > 0 then StripMentions(s[MentionAt(s)..])
    else [s[0]] + StripMentions(s[1..])
  }

  /** The text handed to the agent: mentions stripped, then trimmed. */
  function CleanText(text: string): (r: string)
    ensures r == [] || (!IsTrimmable(r[0]) && !IsTrimmable(r[|r| - 1]))
  {
    Trim(StripMentions(text))
  }

  /** The event filter of the message handler: events with a subtype or a
      bot id, without a user or a text, with blank text, from the bot's own
      user (a null bot user id matches no one), or with nothing left after
      the mentions are stripped, are ignored. */
  function Filter(event: MessageEvent, botUserId: Option<string>): (r: Inbound)
    ensures r.Accepted? ==> event.subtype.None? && event.botId.None?
    ensures r.Accepted? ==> event.user == Some(r.user) && botUserId != Some(r.user)
    ensures r.Accepted? ==> event.text.Some? && !IsBlank(event.text.value)
    ensures r.Accepted? ==> r.text == CleanText(event.text.value) && r.text != []
    ensures r.Accepted? ==> r.channel == event.channel
  {
    if event.subtype.Some? || event.botId.Some? then Ignored
    else if event.user.None? || event.text.None? || IsBlank(event.text.value) then Ignored
    else if botUserId == Some(event.user.value) then Ignored
    else
      var clean := CleanText(event.text.value);
      if clean == [] then Ignored else Accepted(event.user.value, clean, event.channel)
  }

  /** Every event from a user other than the bot, with no subtype and no bot
      id, whose text is not blank and has something left once the mentions
      are stripped, is accepted: the filter drops nothing else. */
  lemma FilterAcceptsOrdinary(event: MessageEvent, botUserId: Option<string>)
    requires event.subtype.None? && event.botId.None?
    requires event.user.Some? && botUserId != event.user
    requires event.text.Some? && !IsBlank(event.text.value) && CleanText(event.text.value) != []
    ensures Filter(event, botUserId) == Accepted(event.user.value, CleanText(event.text.value), event.channel)
  {
  }

  /** Text without '<' passes the stripping unchanged. */
  lemma {:induction false} StripMentionsPlain(prefix: string, t: string)
    requires '<' !in prefix
    ensures StripMentions(prefix + t) == prefix + StripMentions(t)
    decreases |prefix|
  {
    if prefix != [] {
      var s := prefix + t;
      assert s[0] == prefix[0] && s[1..] == prefix[1..] + t;
      assert StripMentions(s) == [prefix[0]] + StripMentions(prefix[1..] + t);
      StripMentionsPlain(prefix[1..], t);
      assert prefix == [prefix[0]] + prefix[1..];
    } else {
      assert prefix + t == t;
    }
  }

  /** A mention at the front is matched together with all the \s
      characters after it, up to where `rest` begins. */
  lemma MentionAtFront(id: string, spaces: string, rest: string) returns (n: nat)
    requires id != [] && forall i :: 0 <= i < |id| ==> IsIdChar(id[i])
    requires forall i :: 0 <= i < |spaces| ==> IsRegexSpace(spaces[i])
    requires rest == [] || !IsRegexSpace(rest[0])
    ensures n == 3 + |id| + |spaces| && n <= |"<@" + (id + (">" + (spaces + rest)))|
    ensures MentionAt("<@" + (id + (">" + (spaces + rest)))) == n
    ensures ("<@" + (id + (">" + (spaces + rest))))[n..] == rest
  {
    var s := "<@" + (id + (">" + (spaces + rest)));
    var afterAt := id + (">" + (spaces + rest));
    assert s[2..] == afterAt;
    IdRunOf(id, ">" + (spaces + rest));
    assert s[2 + |id|] == '>';
    assert s[3 + |id|..] == spaces + rest;
    SpaceRunOf(spaces, rest);
    n := 3 + |id| + |spaces|;
    assert s[n..] == (spaces + rest)[|spaces|..];
  }

  /** One removal step of the scan. */
  lemma StripStep(s: string, n: nat, rest: string)
    requires n <= |s| && MentionAt(s) == n && n > 0 && s[n..] == rest
    ensures StripMentions(s) == StripMentions(rest)
  {
  }

  /** The id run of an id followed by a non-id character is the id. */
  lemma {:induction false} IdRunOf(id: string, t: string)
    requires forall i :: 0 <= i < |id| ==> IsIdChar(id[i])
    requires t == [] || !IsIdChar(t[0])
    ensures IdRun(id + t) == |id|
    decreases |id|
  {
    if id != [] {
      assert (id + t)[1..] == id[1..] + t;
      IdRunOf(id[1..], t);
    } else {
      assert id + t == t;
    }
  }

  /** The space run of spaces followed by a non-space character is the
      spaces. */
  lemma {:induction false} SpaceRunOf(spaces: string, t: string)
    requires forall i :: 0 <= i < |spaces| ==> IsRegexSpace(spaces[i])
    requires t == [] || !IsRegexSpace(t[0])
    ensures SpaceRun(spaces + t) == |spaces|
    decreases |spaces|
  {
    if spaces != [] {
      assert (spaces + t)[1..] == spaces[1..] + t;
      SpaceRunOf(spaces[1..], t);
    } else {
      assert spaces + t == t;
    }
  }

  /** Each mention is removed with the \s characters after it, and the scan
      goes on with the text after them. */
  lemma MentionRemoved(prefix: string, id: string, spaces: string, rest: string)
    requires '<' !in prefix
    requires id != [] && forall i :: 0 <= i < |id| ==> IsIdChar(id[i])
    requires forall i :: 0 <= i < |spaces| ==> IsRegexSpace(spaces[i])
    requires rest == [] || !IsRegexSpace(rest[0])
    ensures StripMentions(prefix + ("<@" + (id + (">" + (spaces + rest))))) == prefix + StripMentions(rest)
  {
    var s := "<@" + (id + (">" + (spaces + rest)));
    StripMentionsPlain(prefix, s);
    var n := MentionAtFront(id, spaces, rest);
    StripStep(s, n, rest);
  }

  /** The scan does not look back: in "<<@A>@B>", removing the inner
      mention "<@A>" joins the text around it into a new mention "<@B>",
      which stays in the result. */
  lemma NoRescan(first: string, second: string)
    requires first != [] && forall i :: 0 <= i < |first| ==> IsIdChar(first[i])
    requires forall i :: 0 <= i < |second| ==> IsIdChar(second[i])
    ensures StripMentions("<" + ("<@" + (first + (">" + ("@" + (second + ">")))))) == "<" + ("@" + (second + ">"))
  {
    var t := "@" + (second + ">");
    var inner := "<@" + (first + (">" + t));
    var s := "<" + inner;
    assert s[1] == '<' && s[1..] == inner;
    assert MentionAt(s) == 0;
    assert StripMentions(s) == [s[0]] + StripMentions(inner);
    NoOpeningInId(second);
    MentionThenPlain(first, t);
  }

  /** A mention followed by text without '<' leaves that text. */
  lemma MentionThenPlain(id: string, t: string)
    requires id != [] && forall i :: 0 <= i < |id| ==> IsIdChar(id[i])
    requires '<' !in t && (t == [] || !IsRegexSpace(t[0]))
    ensures StripMentions("<@" + (id + (">" + t))) == t
  {
    assert [] + t == t;
    var n := MentionAtFront(id, [], t);
    StripStep("<@" + (id + (">" + t)), n, t);
    StripMentionsPlain(t, []);
    assert t + [] == t;
  }

  /** The text after "<" in "<@B>" holds no '<'. */
  lemma NoOpeningInId(id: string)
    requires forall i :: 0 <= i < |id| ==> IsIdChar(id[i])
    ensures '<' !in "@" + (id + ">")
  {
    forall i | 0 <= i < |"@" + (id + ">")| ensures ("@" + (id + ">"))[i] != '<' {
      if 0 < i <= |id| {
        assert ("@" + (id + ">"))[i] == id[i - 1];
      }
    }
  }

  /** The text the handler says when handling an accepted message fails. */
  const APOLOGY: string := "Sorry, I encountered an error processing your message."

  /** What the handler sends besides the acknowledgement: nothing, the
      agent's answer posted to the event's channel, or the apology. */
  datatype Reply = NoReply | Posted(channel: Option<string>, text: string) | Said(text: string)

  /** The key of a Slack user's session in the channel's map. */
  function SessionKey(userId: string): string
  {
    "slack:" + userId
  }

  /** Different users have different keys. */
  lemma SessionKeyInjective(a: string, b: string)
    requires SessionKey(a) == SessionKey(b)
    ensures a == b
  {
    assert a == SessionKey(a)[6..] && b == SessionKey(b)[6..];
  }

  class SlackChannel {
    const executor: AgentExecutor
    const sessionStore: SessionStore
    /** The session of each Slack user, keyed by SessionKey. */
    var userSessions: map<string, Session>

    constructor (executor: AgentExecutor, sessionStore: SessionStore)
      ensures this.executor == executor && this.sessionStore == sessionStore
      ensures userSessions == map[]
    {
      this.executor := executor;
      this.sessionStore := sessionStore;
      userSessions := map[];
    }

    /** getOrCreateSession: the session cached for the user, or else a new
        one with channel "slack" created in the store and cached. */
    method GetOrCreateSession(slackUserId: string, freshId: string, now: Instant) returns (s: Session)
      requires sessionStore.Valid()
      modifies this`userSessions, sessionStore
      ensures sessionStore.Valid()
      ensures SessionKey(slackUserId) in old(userSessions) ==>
        && s == old(userSessions[SessionKey(slackUserId)])
        && userSessions == old(userSessions)
        && unchanged(sessionStore)
      ensures SessionKey(slackUserId) !in old(userSessions) ==>
        && fresh(s)
        && s.State() == SessionState(freshId, "slack", slackUserId, [], now, now)
        && userSessions == old(userSessions)[SessionKey(slackUserId) := s]
        && sessionStore.sessions == old(sessionStore.sessions)[freshId := s]
        && sessionStore.View() == old(sessionStore.View())[freshId := s.State()]
        && sessionStore.appended == old(sessionStore.appended)
    {
      var key := SessionKey(slackUserId);
      if key in userSessions {
        return userSessions[key];
      }
      s := sessionStore.CreateSession("slack", slackUserId, freshId, now);
      assert sessionStore.View()[freshId] == s.State();
      userSessions := userSessions[key := s];
    }

    /** The message handler: an ignored event is only acknowledged; for an
        accepted one the user's session is fetched or created, the agent
        runs on the cleaned text, and its answer is posted to the event's
        channel, or the apology is said when that fails. Posting fails
        exactly when `postOk` is false. The cached session is used as it
        is, so an answer is posted only when the store still holds it or
        the session is new. */
    method OnMessage(event: MessageEvent, botUserId: Option<string>, freshId: string, now: Instant, postOk: bool)
        returns (reply: Reply)
      requires sessionStore.Valid() && executor.store.Valid()
      modifies this`userSessions, sessionStore, executor.store, executor.store.sessions.Values
      ensures Filter(event, botUserId).Ignored? ==>
        && reply == NoReply
        && userSessions == old(userSessions)
        && unchanged(sessionStore) && unchanged(executor.store)
      ensures executor.store.Valid()
      ensures Filter(event, botUserId).Accepted? ==> reply.Posted? || reply == Said(APOLOGY)
      ensures reply.Posted? ==> reply.channel == event.channel
      ensures Filter(event, botUserId).Accepted? ==>
        var key := SessionKey(Filter(event, botUserId).user);
        var sid := if key in old(userSessions) then old(userSessions[key].id) else freshId;
        (reply.Posted? <==>
          postOk && (sid in old(executor.store.sessions) || (key !in old(userSessions) && executor.store == sessionStore)))
      ensures Filter(event, botUserId).Accepted? && executor.store == sessionStore
              && SessionKey(Filter(event, botUserId).user) !in old(userSessions) ==>
        && freshId in sessionStore.sessions
        && fresh(sessionStore.sessions[freshId])
        && sessionStore.sessions == old(sessionStore.sessions)[freshId := sessionStore.sessions[freshId]]
        && sessionStore.View()[freshId].lastActiveAt == now
        && userSessions == old(userSessions)[SessionKey(Filter(event, botUserId).user) := sessionStore.sessions[freshId]]
    {
      var inbound := Filter(event, botUserId);
      if inbound.Ignored? {
        return NoReply;
      }
      reply := Respond(inbound.user, inbound.text, inbound.channel, freshId, now, postOk);
    }

    /** The message handler with the corrected session lookup, which
        replaces a cached session the store has evicted: when the agent
        runs on this channel's store, every accepted message is answered
        whenever posting works. */
    method OnMessageCorrected(event: MessageEvent, botUserId: Option<string>, freshId: string, now: Instant, postOk: bool)
        returns (reply: Reply)
      requires sessionStore.Valid() && executor.store.Valid()
      modifies this`userSessions, sessionStore, executor.store, executor.store.sessions.Values
      ensures Filter(event, botUserId).Ignored? ==>
        && reply == NoReply
        && userSessions == old(userSessions)
        && unchanged(sessionStore) && unchanged(executor.store)
      ensures executor.store.Valid()
      ensures Filter(event, botUserId).Accepted? ==> reply.Posted? || reply == Said(APOLOGY)
      ensures reply.Posted? ==> reply.channel == event.channel
      ensures Filter(event, botUserId).Accepted? && executor.store == sessionStore ==> (reply.Posted? <==> postOk)
      ensures executor.store == sessionStore ==>
        forall o :: o in sessionStore.sessions.Values ==> o in old(sessionStore.sessions.Values) || fresh(o)
    {
      var inbound := Filter(event, botUserId);
      if inbound.Ignored? {
        return NoReply;
      }
      reply := RespondLive(inbound.user, inbound.text, inbound.channel, freshId, now, postOk);
    }

    /** The handling of an accepted message as written: the cached session
        is used even when the store no longer holds it. */
    method Respond(user: string, text: string, channel: Option<string>, freshId: string, now: Instant, postOk: bool)
        returns (reply: Reply)
      requires sessionStore.Valid() && executor.store.Valid()
      modifies this`userSessions, sessionStore, executor.store, executor.store.sessions.Values
      ensures executor.store.Valid()
      ensures reply.Posted? || reply == Said(APOLOGY)
      ensures reply.Posted? ==> reply.channel == channel
      ensures var key := SessionKey(user);
        var sid := if key in old(userSessions) then old(userSessions[key].id) else freshId;
        (reply.Posted? <==>
          postOk && (sid in old(executor.store.sessions) || (key !in old(userSessions) && executor.store == sessionStore)))
      ensures executor.store == sessionStore && SessionKey(user) !in old(userSessions) ==>
        && freshId in sessionStore.sessions
        && fresh(sessionStore.sessions[freshId])
        && sessionStore.sessions == old(sessionStore.sessions)[freshId := sessionStore.sessions[freshId]]
        && sessionStore.View()[freshId].lastActiveAt == now
        && userSessions == old(userSessions)[SessionKey(user) := sessionStore.sessions[freshId]]
    {
      var session := GetOrCreateSession(user, freshId, now);
      var r := Ask(session.id, text, now);
      if r.Failure? || !postOk {
        return Said(APOLOGY);
      }
      return Posted(channel, r.value);
    }
  
    /** The session lookup with the cache checked against the store: a
        cached session the store no longer holds (evicted) is replaced by a
        new one, so the session returned is always registered. */
    method GetOrCreateLiveSession(slackUserId: string, freshId: string, now: Instant) returns (s: Session)
      requires sessionStore.Valid()
      modifies this`userSessions, sessionStore
      ensures sessionStore.Valid()
      ensures s.id in sessionStore.sessions
      ensures var key := SessionKey(slackUserId);
        key in old(userSessions) && old(userSessions[key].id) in old(sessionStore.sessions) ==>
          && s == old(userSessions[key])
          && userSessions == old(userSessions)
          && unchanged(sessionStore)
      ensures var key := SessionKey(slackUserId);
        !(key in old(userSessions) && old(userSessions[key].id) in old(sessionStore.sessions)) ==>
          && fresh(s)
          && s.State() == SessionState(freshId, "slack", slackUserId, [], now, now)
          && userSessions == old(userSessions)[key := s]
          && sessionStore.sessions == old(sessionStore.sessions)[freshId := s]
          && sessionStore.View() == old(sessionStore.View())[freshId := s.State()]
          && sessionStore.appended == old(sessionStore.appended)
      ensures forall o :: o in sessionStore.sessions.Values ==> o in old(sessionStore.sessions.Values) || fresh(o)
    {
      var key := SessionKey(slackUserId);
      if key in userSessions && sessionStore.GetSession(userSessions[key].id).Some? {
        return userSessions[key];
      }
      s := sessionStore.CreateSession("slack", slackUserId, freshId, now);
      assert sessionStore.View()[freshId] == s.State();
      userSessions := userSessions[key := s];
    }

    /** The agent's run on a session, as far as the handler needs it: it
        answers exactly when the store holds the session, which it leaves
        registered and stamps with the time of the message. */
    method Ask(sessionId: string, text: string, now: Instant) returns (r: Result<string, string>)
      requires executor.store.Valid()
      modifies executor.store, executor.store.sessions.Values
      ensures executor.store.Valid()
      ensures executor.store.sessions == old(executor.store.sessions)
      ensures r.Success? <==> sessionId in old(executor.store.sessions)
      ensures r.Success? ==> sessionId in executor.store.View() && executor.store.View()[sessionId].lastActiveAt == now
    {
      r := executor.Execute(sessionId, text, now);
    }

    /** The handling of an accepted message with the checked lookup: when
        the agent runs on this channel's store, the answer is posted
        whenever posting works, evicted session or not. */
    method RespondLive(user: string, text: string, channel: Option<string>, freshId: string, now: Instant, postOk: bool)
        returns (reply: Reply)
      requires sessionStore.Valid() && executor.store.Valid()
      modifies this`userSessions, sessionStore, executor.store, executor.store.sessions.Values
      ensures executor.store.Valid()
      ensures reply.Posted? || reply == Said(APOLOGY)
      ensures reply.Posted? ==> reply.channel == channel
      ensures executor.store == sessionStore ==> (reply.Posted? <==> postOk)
      ensures executor.store == sessionStore ==>
        forall o :: o in sessionStore.sessions.Values ==> o in old(sessionStore.sessions.Values) || fresh(o)
    {
      var session := GetOrCreateLiveSession(user, freshId, now);
      var r := Ask(session.id, text, now);
      if r.Failure? || !postOk {
        return Said(APOLOGY);
      }
      return Posted(channel, r.value);
    }
  }

  /** With the handler body as written, a user who is silent for more than
      a day gets only the apology from then on: the first message creates
      and caches the session, eviction drops it from the store, and the
      next message finds the cached session but the agent no longer finds
      its id. */
  method EvictedUserGetsApology(channel: SlackChannel, event: MessageEvent, botUserId: Option<string>,
                                freshId: string, otherId: string, t0: Instant, t1: Instant, t2: Instant)
      returns (first: Reply, second: Reply)
    requires channel.executor.store == channel.sessionStore && channel.sessionStore.Valid()
    requires channel.userSessions == map[]
    requires Filter(event, botUserId).Accepted?
    requires t0 < t1 - SESSION_TTL_MS
    modifies channel, channel.sessionStore, channel.sessionStore.sessions.Values
    ensures first.Posted?
    ensures second == Said(APOLOGY)
  {
    first := FirstMessage(channel, event, botUserId, freshId, t0);
    second := MessageAfterEviction(channel, event, botUserId, freshId, otherId, t0, t1, t2);
  }

  /** Once the session cached for the user has idled past the time to live,
      eviction and a further message from the user yield the apology. */
  method MessageAfterEviction(channel: SlackChannel, event: MessageEvent, botUserId: Option<string>,
                              cachedId: string, freshId: string, t0: Instant, t1: Instant, t2: Instant)
      returns (second: Reply)
    requires channel.executor.store == channel.sessionStore && channel.sessionStore.Valid()
    requires Filter(event, botUserId).Accepted?
    requires SessionKey(Filter(event, botUserId).user) in channel.userSessions
    requires channel.userSessions[SessionKey(Filter(event, botUserId).user)].id == cachedId
    requires cachedId in channel.sessionStore.View() && channel.sessionStore.View()[cachedId].lastActiveAt == t0
    requires t0 < t1 - SESSION_TTL_MS
    modifies channel, channel.sessionStore, channel.sessionStore.sessions.Values
    ensures second == Said(APOLOGY)
  {
    var store := channel.sessionStore;
    store.EvictExpiredSessions(t1);
    assert cachedId !in store.View();
    second := StaleSessionApology(channel, event, botUserId, freshId, t2);
  }

  /** The first message of a user creates, caches and posts from session
      `freshId`, stamped with the message's time. */
  method FirstMessage(channel: SlackChannel, event: MessageEvent, botUserId: Option<string>,
                      freshId: string, now: Instant)
      returns (first: Reply)
    requires channel.executor.store == channel.sessionStore && channel.sessionStore.Valid()
    requires channel.userSessions == map[]
    requires Filter(event, botUserId).Accepted?
    modifies channel, channel.sessionStore, channel.sessionStore.sessions.Values
    ensures first.Posted?
    ensures channel.sessionStore.Valid()
    ensures SessionKey(Filter(event, botUserId).user) in channel.userSessions
    ensures channel.userSessions[SessionKey(Filter(event, botUserId).user)].id == freshId
    ensures freshId in channel.sessionStore.View() && channel.sessionStore.View()[freshId].lastActiveAt == now
    ensures forall o :: o in channel.sessionStore.sessions.Values ==> o in old(channel.sessionStore.sessions.Values) || fresh(o)
  {
    var store := channel.sessionStore;
    first := channel.OnMessage(event, botUserId, freshId, now, true);
    var key := SessionKey(Filter(event, botUserId).user);
    assert channel.userSessions[key] == store.sessions[freshId];
  }

  /** A message from a user whose cached session the store no longer holds
      is answered with the apology, whatever the agent would say. */
  method StaleSessionApology(channel: SlackChannel, event: MessageEvent, botUserId: Option<string>,
                             freshId: string, now: Instant)
      returns (reply: Reply)
    requires channel.executor.store == channel.sessionStore && channel.sessionStore.Valid()
    requires Filter(event, botUserId).Accepted?
    requires SessionKey(Filter(event, botUserId).user) in channel.userSessions
    requires channel.userSessions[SessionKey(Filter(event, botUserId).user)].id !in channel.sessionStore.sessions
    modifies channel, channel.sessionStore, channel.sessionStore.sessions.Values
    ensures reply == Said(APOLOGY)
  {
    reply := channel.OnMessage(event, botUserId, freshId, now, true);
  }

  /** With the corrected lookup of `OnMessageCorrected`, the same user is
      answered again after eviction. */
  method EvictedUserServedAgain(channel: SlackChannel, event: MessageEvent, botUserId: Option<string>,
                                freshId: string, otherId: string, t0: Instant, t1: Instant, t2: Instant)
      returns (first: Reply, second: Reply)
    requires channel.executor.store == channel.sessionStore && channel.sessionStore.Valid()
    requires Filter(event, botUserId).Accepted?
    modifies channel, channel.sessionStore, channel.sessionStore.sessions.Values
    ensures first.Posted? && second.Posted?
  {
    var store := channel.sessionStore;
    first := channel.OnMessageCorrected(event, botUserId, freshId, t0, true);
    store.EvictExpiredSessions(t1);
    second := channel.OnMessageCorrected(event, botUserId, otherId, t2, true);
  }
}
