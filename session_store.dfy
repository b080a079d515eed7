/** The in-memory session registry, its append-only JSON-lines logs, TTL
    eviction, and recovery of sessions from the logs at start-up. */
module SessionStores {
  import opened Common
  import opened Messages
  import opened Sessions

  /** SESSION_TTL: 24 hours, in milliseconds. */
  const SESSION_TTL_MS: int := 24 * 60 * 60 * 1000

  const LOG_SUFFIX: string := ".jsonl"

  /** The log file of a session is named after its id. */
  function LogFileName(id: string): string
  {
    id + LOG_SUFFIX
  }

  /** The session id of a log file: its name without ".jsonl". */
  function SessionIdOf(fileName: string): (id: string)
    requires EndsWith(fileName, LOG_SUFFIX)
    ensures LogFileName(id) == fileName
    ensures |id| == |fileName| - |LOG_SUFFIX|
  {
    fileName[..|fileName| - |LOG_SUFFIX|]
  }

  /** id -> file name -> id is the identity, and the name of a session's own
      log is matched by the "*.jsonl" scan. */
  lemma LogFileNameRoundTrip(id: string)
    ensures EndsWith(LogFileName(id), LOG_SUFFIX)
    ensures SessionIdOf(LogFileName(id)) == id
  {
    assert LogFileName(id)[|id|..] == LOG_SUFFIX;
  }

  /** One line of a log as read back: its text and what parsing it as a
      Message gives (None when Jackson throws). */
  datatype LogLine = LogLine(text: string, parsed: Option<Message>)

  /** A file of the sessions directory: its name and its lines. */
  datatype LogFile = LogFile(name: string, lines: seq<LogLine>)

  /** The messages of a log, read line by line: blank lines are skipped,
      every other line is one message in file order, and a line that does
      not parse aborts the whole file (None). */
  function RecoverMessages(lines: seq<LogLine>): (r: Option<seq<Message>>)
    ensures r.Some? ==> |r.value| <= |lines|
  {
    if lines == [] then Some([])
    else
      var init := lines[..|lines| - 1];
      var last := lines[|lines| - 1];
      match RecoverMessages(init)
      case None => None
      case Some(ms) =>
        if IsBlank(last.text) then Some(ms)
        else if last.parsed.None? then None
        else Some(ms + [last.parsed.value])
  }

  /** A log fails to recover exactly when one of its non-blank lines does not
      parse, and recovers to no message only when every line is blank. */
  lemma {:induction false} RecoverMessagesFails(lines: seq<LogLine>)
    ensures RecoverMessages(lines).None? <==> exists i :: 0 <= i < |lines| && !IsBlank(lines[i].text) && lines[i].parsed.None?
    ensures RecoverMessages(lines) == Some([]) ==> forall i :: 0 <= i < |lines| ==> IsBlank(lines[i].text)
  {
    if lines != [] {
      var init := lines[..|lines| - 1];
      RecoverMessagesFails(init);
      assert forall i :: 0 <= i < |init| ==> init[i] == lines[i];
    }
  }

  /** Recovery reads back exactly what was written: when every line is the
      non-blank serialisation of a message, the log recovers to those
      messages in order. */
  lemma {:induction false} RecoverWrittenLog(lines: seq<LogLine>, ms: seq<Message>)
    requires |lines| == |ms|
    requires forall i :: 0 <= i < |lines| ==> !IsBlank(lines[i].text) && lines[i].parsed == Some(ms[i])
    ensures RecoverMessages(lines) == Some(ms)
  {
    if lines != [] {
      var n := |lines| - 1;
      RecoverWrittenLog(lines[..n], ms[..n]);
      assert ms == ms[..n] + [ms[n]];
    }
  }

  /** Appending one more written message to a readable log adds exactly that
      message at the end of what recovery yields. */
  lemma AppendedLineRecovered(lines: seq<LogLine>, line: LogLine, m: Message)
    requires RecoverMessages(lines).Some?
    requires !IsBlank(line.text) && line.parsed == Some(m)
    ensures RecoverMessages(lines + [line]) == Some(RecoverMessages(lines).value + [m])
  {
    assert (lines + [line])[..|lines|] == lines;
  }

  /** The timestamp of the last message that has one, else `default`. */
  function LastTimestamp(ms: seq<Message>, default: Instant): (r: Instant)
    ensures (exists i :: 0 <= i < |ms| && ms[i].timestamp == Some(r)
               && forall j :: i < j < |ms| ==> ms[j].timestamp.None?)
         || (r == default && forall j :: 0 <= j < |ms| ==> ms[j].timestamp.None?)
  {
    if ms == [] then default
    else if ms[|ms| - 1].timestamp.Some? then ms[|ms| - 1].timestamp.value
    else
      var r := LastTimestamp(ms[..|ms| - 1], default);
      assert forall j :: 0 <= j < |ms| - 1 ==> ms[..|ms| - 1][j] == ms[j];
      r
  }

  /** The state of a session recovered from messages `ms`. */
  function RecoveredState(id: string, ms: seq<Message>, now: Instant): (st: SessionState)
    requires ms != []
    ensures st.createdAt == if ms[0].timestamp.Some? then ms[0].timestamp.value else now
    ensures st.lastActiveAt == LastTimestamp(ms, now)
  {
    SessionState(id, "recovered", "unknown", ms,
                 if ms[0].timestamp.Some? then ms[0].timestamp.value else now,
                 LastTimestamp(ms, now))
  }

  /** What recoverSession returns: a session, null (no messages), or an
      exception (a line that does not parse). */
  datatype Recovery = Recovered(session: Session) | NoMessages | Corrupt

  /** One more line read: a blank line adds nothing, a line that does not
      parse aborts, any other line adds its message at the end. */
  lemma RecoverNextLine(lines: seq<LogLine>, i: nat, ms: seq<Message>)
    requires i < |lines| && RecoverMessages(lines[..i]) == Some(ms)
    ensures IsBlank(lines[i].text) ==> RecoverMessages(lines[..i + 1]) == Some(ms)
    ensures !IsBlank(lines[i].text) && lines[i].parsed.None? ==> RecoverMessages(lines[..i + 1]).None?
    ensures !IsBlank(lines[i].text) && lines[i].parsed.Some? ==>
              RecoverMessages(lines[..i + 1]) == Some(ms + [lines[i].parsed.value])
  {
    assert lines[..i + 1][..i] == lines[..i];
  }

  /** The last timestamp after one more message: its own when it has one. */
  lemma LastTimestampNext(ms: seq<Message>, m: Message, default: Instant)
    ensures LastTimestamp(ms + [m], default) == if m.timestamp.Some? then m.timestamp.value else LastTimestamp(ms, default)
  {
    assert (ms + [m])[..|ms|] == ms;
  }

  /** The read loop of recoverSession: every line in order into session
      `s`, stopping at the first non-blank line that does not parse. */
  method ReadLines(s: Session, lines: seq<LogLine>, now: Instant) returns (ok: bool)
    requires s.State() == SessionState(s.id, "recovered", "unknown", [], now, now)
    modifies s`messages, s`lastActiveAt
    ensures ok <==> RecoverMessages(lines).Some?
    ensures ok ==> s.State() == SessionState(old(s.id), "recovered", "unknown", RecoverMessages(lines).value,
                                             now, LastTimestamp(RecoverMessages(lines).value, now))
  {
    var i := 0;
    assert lines[..0] == [];
    while i < |lines|
      invariant 0 <= i <= |lines|
      invariant RecoverMessages(lines[..i]) == Some(s.messages)
      invariant s.id == old(s.id) && s.channelType == "recovered" && s.userId == "unknown" && s.createdAt == now
      invariant s.lastActiveAt == LastTimestamp(s.messages, now)
    {
      var line := lines[i];
      RecoverNextLine(lines, i, s.messages);
      if !IsBlank(line.text) {
        if line.parsed.None? {
          RecoverMessagesFails(lines);
          assert !IsBlank(lines[i].text) && lines[i].parsed.None?;
          return false;
        }
        var m := line.parsed.value;
        LastTimestampNext(s.messages, m, now);
        s.messages := s.messages + [m];
        if m.timestamp.Some? {
          s.lastActiveAt := m.timestamp.value;
        }
      }
      i := i + 1;
    }
    assert lines[..i] == lines;
    return true;
  }

  /** recoverSession: read the lines in order into a fresh session. */
  method RecoverSession(id: string, lines: seq<LogLine>, now: Instant) returns (r: Recovery)
    ensures r.Corrupt? <==> RecoverMessages(lines).None?
    ensures r.NoMessages? <==> RecoverMessages(lines) == Some([])
    ensures r.Recovered? ==>
              && fresh(r.session) && RecoverMessages(lines).Some?
              && RecoverMessages(lines).value != []
              && r.session.State() == RecoveredState(id, RecoverMessages(lines).value, now)
  {
    var s := new Session.Recovered(id, now);
    var ok := ReadLines(s, lines, now);
    if !ok {
      return Corrupt;
    }
    if s.messages == [] {
      return NoMessages;
    }
    if s.messages[0].timestamp.Some? {
      s.createdAt := s.messages[0].timestamp.value;
    }
    return Recovered(s);
  }

  /** No two files of a directory share a name. */
  predicate DistinctNames(files: seq<LogFile>)
  {
    forall a, b :: 0 <= a < b < |files| ==> files[a].name != files[b].name
  }

  /** The registry after the scan has reached log file `f`: a file named
      "*.jsonl" that recovers to at least one message registers its session
      under the file name without ".jsonl"; any other file adds nothing. */
  function LoadOne(before: map<string, SessionState>, f: LogFile, now: Instant): map<string, SessionState>
  {
    if !EndsWith(f.name, LOG_SUFFIX) then before
    else
      match RecoverMessages(f.lines)
      case None => before
      case Some(ms) =>
        if ms == [] then before else before[SessionIdOf(f.name) := RecoveredState(SessionIdOf(f.name), ms, now)]
  }

  /** The sessions loadExistingSessions adds for the files of the directory,
      in scan order. */
  function LoadedSessions(files: seq<LogFile>, now: Instant): map<string, SessionState>
  {
    if files == [] then map[]
    else LoadOne(LoadedSessions(files[..|files| - 1], now), files[|files| - 1], now)
  }

  /** Every loaded session comes from the log file named after it. */
  lemma {:induction false} LoadedSessionsFromFiles(files: seq<LogFile>, now: Instant, id: string)
    requires id in LoadedSessions(files, now)
    ensures exists j :: 0 <= j < |files| && files[j].name == LogFileName(id)
  {
    var n := |files| - 1;
    if id in LoadedSessions(files[..n], now) {
      LoadedSessionsFromFiles(files[..n], now, id);
      var j :| 0 <= j < n && files[..n][j].name == LogFileName(id);
      assert files[j].name == LogFileName(id);
    } else {
      assert files[n].name == LogFileName(id);
    }
  }

  /** Each "*.jsonl" file is loaded on its own: it yields its session when it
      recovers to at least one message, and no session when it is empty or
      has a line that does not parse, whatever the other files hold. */
  lemma {:induction false} LoadedSessionsPerFile(files: seq<LogFile>, now: Instant, j: nat)
    requires DistinctNames(files)
    requires j < |files| && EndsWith(files[j].name, LOG_SUFFIX)
    ensures var id := SessionIdOf(files[j].name);
            var rec := RecoverMessages(files[j].lines);
            if rec.Some? && rec.value != [] then
              id in LoadedSessions(files, now) && LoadedSessions(files, now)[id] == RecoveredState(id, rec.value, now)
            else
              id !in LoadedSessions(files, now)
  {
    var n := |files| - 1;
    var id := SessionIdOf(files[j].name);
    var init := files[..n];
    assert DistinctNames(init);
    if j < n {
      LoadedSessionsPerFile(init, now, j);
      assert init[j] == files[j];
      if EndsWith(files[n].name, LOG_SUFFIX) {
        assert files[n].name != files[j].name;
        assert LogFileName(SessionIdOf(files[n].name)) != LogFileName(id);
      }
    } else {
      if id in LoadedSessions(init, now) {
        LoadedSessionsFromFiles(init, now, id);
        assert false;
      }
    }
  }

  /** A session is expired when it was last active strictly before now - 24h. */
  predicate Expired(st: SessionState, now: Instant)
  {
    st.lastActiveAt < now - SESSION_TTL_MS
  }

  /** The sessions that survive eviction at `now`, unchanged. */
  function Evicted(v: map<string, SessionState>, now: Instant): map<string, SessionState>
  {
    map k | k in v && !Expired(v[k], now) :: v[k]
  }

  /** Evicting twice at the same instant evicts nothing more, and an earlier
      eviction never keeps a session that a later one would drop. */
  lemma EvictionComposes(v: map<string, SessionState>, t1: Instant, t2: Instant)
    requires t1 <= t2
    ensures Evicted(Evicted(v, t1), t2) == Evicted(v, t2)
    ensures Evicted(v, t2).Keys <= Evicted(v, t1).Keys
  {
  }

  /** Loading a file on top of sessions that were already registered
      touches only what the file itself yields. */
  lemma LoadOneOfUnion(a: map<string, SessionState>, b: map<string, SessionState>, f: LogFile, now: Instant)
    ensures LoadOne(a + b, f, now) == a + LoadOne(b, f, now)
  {
    if EndsWith(f.name, LOG_SUFFIX) && RecoverMessages(f.lines).Some? && RecoverMessages(f.lines).value != [] {
      var id := SessionIdOf(f.name);
      var st := RecoveredState(id, RecoverMessages(f.lines).value, now);
      assert (a + b)[id := st] == a + b[id := st];
    }
  }

  class SessionStore {
    /** The in-memory registry, keyed by session id. */
    var sessions: map<string, Session>
    /** The messages this store appended to each log file, keyed by file name. */
    var appended: map<string, seq<Message>>

    /** Every session is registered under its own id (so no two keys share a
        session object). */
    ghost predicate Valid()
      reads this`sessions, sessions.Values
    {
      forall k :: k in sessions ==> sessions[k].id == k
    }

    /** The registry's content as values. */
    function View(): map<string, SessionState>
      reads this`sessions, sessions.Values
    {
      map k | k in sessions :: sessions[k].State()
    }

    /** The view without session `id`, read without touching that session. */
    ghost function OthersView(id: string): (v: map<string, SessionState>)
      requires id in sessions
      reads this`sessions, sessions.Values - {sessions[id]}
    {
      map k | k in sessions && k != id && sessions[k] != sessions[id] :: sessions[k].State()
    }

    /** The view is the others' view plus session `id`. */
    lemma ViewSplit(id: string)
      requires Valid() && id in sessions
      ensures View() == OthersView(id)[id := sessions[id].State()]
    {
      forall k | k in sessions && k != id
        ensures sessions[k] != sessions[id]
      {
      }
    }

    /** What this store appended to the log of session `id` so far. */
    function AppendedLog(id: string): seq<Message>
      reads this`appended
    {
      if LogFileName(id) in appended then appended[LogFileName(id)] else []
    }

    /** The store starts with the sessions recovered from the directory. */
    constructor (files: seq<LogFile>, now: Instant)
      requires DistinctNames(files)
      ensures Valid()
      ensures View() == LoadedSessions(files, now)
      ensures appended == map[]
    {
      sessions := map[];
      appended := map[];
      new;
      LoadExistingSessions(files, now);
    }

    /** loadExistingSessions over the directory's files in scan order: files
        not named "*.jsonl" are not matched; a file that fails is skipped. */
    method LoadExistingSessions(files: seq<LogFile>, now: Instant)
      requires Valid()
      requires DistinctNames(files)
      modifies this
      ensures Valid()
      ensures View() == old(View()) + LoadedSessions(files, now)
      ensures appended == old(appended)
    {
      var i := 0;
      while i < |files|
        invariant 0 <= i <= |files|
        invariant Valid()
        invariant View() == old(View()) + LoadedSessions(files[..i], now)
        invariant appended == old(appended)
      {
        assert files[..i + 1][..i] == files[..i];
        LoadOneOfUnion(old(View()), LoadedSessions(files[..i], now), files[i], now);
        LoadFile(files[i], now);
        i := i + 1;
      }
      assert files[..i] == files;
    }

    /** One iteration of the scan: recover file `f` and register the session
        it yields. */
    method LoadFile(f: LogFile, now: Instant)
      requires Valid()
      modifies this
      ensures Valid()
      ensures View() == LoadOne(old(View()), f, now)
      ensures appended == old(appended)
    {
      if EndsWith(f.name, LOG_SUFFIX) {
        var id := f.name[..|f.name| - |LOG_SUFFIX|];
        assert id == SessionIdOf(f.name);
        var r := RecoverSession(id, f.lines, now);
        if r.Recovered? {
          Register(id, r.session);
        }
      }
    }

    /** createSession: a new session under its fresh id. */
    method CreateSession(channelType: string, userId: string, freshId: string, now: Instant) returns (s: Session)
      requires Valid()
      modifies this
      ensures fresh(s) && Valid()
      ensures sessions == old(sessions)[freshId := s]
      ensures View() == old(View())[freshId := SessionState(freshId, channelType, userId, [], now, now)]
      ensures GetSession(freshId) == Some(s)
      ensures appended == old(appended)
    {
      s := new Session(freshId, channelType, userId, now);
      Register(freshId, s);
    }

    /** Put session `s` into the registry under its own id. */
    method Register(id: string, s: Session)
      requires Valid() && s.id == id
      modifies this`sessions
      ensures Valid()
      ensures sessions == old(sessions)[id := s]
      ensures View() == old(View())[id := s.State()]
    {
      sessions := sessions[id := s];
    }

    /** getSession: the registered session, or null. */
    function GetSession(id: string): (r: Option<Session>)
      reads this`sessions
      ensures r.Some? <==> id in sessions
      ensures r.Some? ==> r.value == sessions[id]
    {
      if id in sessions then Some(sessions[id]) else None
    }

    /** Session.addMessage on the registered session `id`: only that
        session's entry of the registry view changes. */
    method AddToSession(id: string, s: Session, m: Message, now: Instant)
      requires Valid() && id in sessions && sessions[id] == s
      modifies s`messages, s`lastActiveAt
      ensures Valid()
      ensures View() == old(View())[id := old(View()[id]).(messages := old(View()[id].messages) + [m], lastActiveAt := now)]
    {
      s.AddMessage(m, now);
      forall k | k in sessions && k != id
        ensures View()[k] == old(View())[k]
      {
        assert sessions[k] != s;
      }
    }

    /** appendMessage: for a registered id, the message goes at the end of
        that session (which becomes active at `now`) and at the end of its
        log; an unknown id changes nothing. */
    method AppendMessage(id: string, m: Message, now: Instant)
      requires Valid()
      modifies this, sessions.Values
      ensures Valid() && sessions == old(sessions)
      ensures id !in sessions ==> View() == old(View()) && appended == old(appended)
      ensures id in sessions ==>
        View() == old(View())[id := old(View()[id]).(messages := old(View()[id].messages) + [m], lastActiveAt := now)]
        && appended == old(appended)[LogFileName(id) := old(AppendedLog(id)) + [m]]
    {
      if id in sessions {
        AddToSession(id, sessions[id], m, now);
        PersistTurn(id, m);
      }
    }

    /** persistTurn: one more line at the end of the session's log file. */
    method PersistTurn(id: string, m: Message)
      modifies this`appended
      ensures appended == old(appended)[LogFileName(id) := old(AppendedLog(id)) + [m]]
    {
      appended := appended[LogFileName(id) := AppendedLog(id) + [m]];
    }

    /** evictExpiredSessions: drop exactly the sessions last active strictly
        before now - 24h; the others stay as they are. */
    method EvictExpiredSessions(now: Instant)
      requires Valid()
      modifies this`sessions
      ensures Valid()
      ensures View() == Evicted(old(View()), now)
      ensures appended == old(appended)
      ensures forall k :: k in sessions ==> k in old(sessions) && sessions[k] == old(sessions)[k]
    {
      DropSessionsBefore(now - SESSION_TTL_MS);
      assert View().Keys == Evicted(old(View()), now).Keys;
    }

    /** The removal loop of evictExpiredSessions: every registered session
        last active strictly before `cutoff` is removed, the others stay. */
    method DropSessionsBefore(cutoff: Instant)
      modifies this`sessions
      ensures sessions.Keys <= old(sessions).Keys
      ensures forall k :: k in sessions ==> sessions[k] == old(sessions)[k]
      ensures forall k :: k in old(sessions) ==> (k in sessions <==> !(old(sessions)[k].lastActiveAt < cutoff))
    {
      var pending := sessions.Keys;
      while pending != {}
        invariant pending <= sessions.Keys <= old(sessions).Keys
        invariant forall k :: k in sessions ==> sessions[k] == old(sessions)[k]
        invariant forall k :: k in old(sessions) && k !in pending ==>
                    (k in sessions <==> !(old(sessions)[k].lastActiveAt < cutoff))
        decreases pending
      {
        var k :| k in pending;
        if sessions[k].lastActiveAt < cutoff {
          sessions := sessions - {k};
        }
        pending := pending - {k};
      }
    }
  }
}
