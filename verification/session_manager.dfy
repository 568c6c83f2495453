/** The session registry: one record per browser session, with the jobs it started. */
module SessionManagement {
  import opened Wrappers
  import Seqs

  const SecondsPerHour := 3600
  const DefaultMaxAgeHours := 24

  /** The fields of one session at one moment. Times are whole seconds. */
  datatype SessionRecord = SessionRecord(createdAt: int, lastActive: int, processes: seq<string>)

  /** The ValueError `list.remove` raises for a key the list does not hold. */
  datatype SessionError = NotInList(processKey: string)

  /** `lst.remove(x)`: the list without the first occurrence of `x`. */
  function RemoveFirst(s: seq<string>, x: string): (r: seq<string>)
    requires x in s
    ensures |r| == |s| - 1
    ensures multiset(r) == multiset(s) - multiset{x}
    ensures exists i :: 0 <= i < |s| && s[i] == x && x !in s[..i] && r == s[..i] + s[i + 1..]
  {
    var i := Seqs.FirstIndex(s, y => y == x);
    assert s == s[..i.value] + [s[i.value]] + s[i.value + 1..];
    assert x !in s[..i.value];
    s[..i.value] + s[i.value + 1..]
  }

  /** Appending a key and then removing it gives back the list, when the key was not there before. */
  lemma RemoveFirstAppended(s: seq<string>, x: string)
    requires x !in s
    ensures RemoveFirst(s + [x], x) == s
  {
    var t := s + [x];
    var i :| 0 <= i < |t| && t[i] == x && x !in t[..i] && RemoveFirst(t, x) == t[..i] + t[i + 1..];
    assert t[..|s|] == s;
  }

  /** A session `cleanup_inactive_sessions` drops: idle for more than `maxAgeHours`. */
  predicate Idle(session: SessionRecord, now: int, maxAgeHours: int) {
    now - session.lastActive > maxAgeHours * SecondsPerHour
  }

  /** The registry left after evicting idle sessions. */
  function Active(sessions: map<string, SessionRecord>, now: int, maxAgeHours: int): (r: map<string, SessionRecord>)
    ensures forall id :: id in r ==> id in sessions && r[id] == sessions[id] && !Idle(sessions[id], now, maxAgeHours)
    ensures forall id :: id in sessions && !Idle(sessions[id], now, maxAgeHours) ==> id in r
  {
    map id | id in sessions && !Idle(sessions[id], now, maxAgeHours) :: sessions[id]
  }

  /** A registry that kept exactly the sessions that are not idle, with their records, is the
      active one. */
  lemma ActiveFromKeys(sessions: map<string, SessionRecord>, kept: map<string, SessionRecord>, now: int, maxAgeHours: int)
    requires forall id :: id in kept <==> id in sessions && !Idle(sessions[id], now, maxAgeHours)
    requires forall id :: id in kept ==> kept[id] == sessions[id]
    ensures kept == Active(sessions, now, maxAgeHours)
  {
  }

  /** One session; the registry updates `last_active` and the job list in place. */
  class Session {
    const createdAt: int
    var lastActive: int
    var processes: seq<string>

    constructor (now: int)
      ensures Record() == SessionRecord(now, now, [])
    {
      createdAt := now;
      lastActive := now;
      processes := [];
    }

    function Record(): SessionRecord
      reads this
    {
      SessionRecord(createdAt, lastActive, processes)
    }
  }

  class SessionManager {
    var sessions: map<string, Session>

    /** Distinct ids hold distinct records, so a change under one id shows under no other. */
    ghost predicate Valid()
      reads this
    {
      forall id1, id2 :: id1 in sessions && id2 in sessions && id1 != id2 ==> sessions[id1] != sessions[id2]
    }

    /** The registry's contents as values. */
    ghost function Sessions(): map<string, SessionRecord>
      reads this, sessions.Values
    {
      map id | id in sessions :: sessions[id].Record()
    }

    constructor ()
      ensures Valid() && sessions == map[]
    {
      sessions := map[];
    }

    /** Stores a new session under `sessionId` (the fresh `uuid4` string), both times set to `now`
        and no jobs. */
    method CreateSession(sessionId: string, now: int) returns (id: string)
      requires Valid()
      modifies this
      ensures Valid()
      ensures id == sessionId && id in sessions && fresh(sessions[id])
      ensures Sessions() == old(Sessions())[id := SessionRecord(now, now, [])]
      ensures forall k :: k in old(sessions) && k != sessionId ==> k in sessions && sessions[k] == old(sessions[k])
    {
      var session := new Session(now);
      sessions := sessions[sessionId := session];
      id := sessionId;
    }

    /** Refreshes `last_active` of a known session; an unknown id changes nothing. */
    method UpdateSessionActivity(sessionId: string, now: int)
      requires Valid()
      modifies sessions.Values
      ensures Valid() && sessions == old(sessions)
      ensures Sessions() == if sessionId in old(Sessions())
        then old(Sessions())[sessionId := old(Sessions())[sessionId].(lastActive := now)]
        else old(Sessions())
    {
      if sessionId in sessions {
        sessions[sessionId].lastActive := now;
      }
    }

    /** Appends a job key to a known session's list (duplicates allowed); an unknown id changes nothing. */
    method AddProcessToSession(sessionId: string, processKey: string)
      requires Valid()
      modifies sessions.Values
      ensures Valid() && sessions == old(sessions)
      ensures Sessions() == if sessionId in old(Sessions())
        then old(Sessions())[sessionId := old(Sessions())[sessionId].(processes := old(Sessions())[sessionId].processes + [processKey])]
        else old(Sessions())
    {
      if sessionId in sessions {
        var session := sessions[sessionId];
        session.processes := session.processes + [processKey];
      }
    }

    /** Removes the first occurrence of a job key from a known session's list. A known session whose
        list lacks the key raises; an unknown id changes nothing. */
    method RemoveProcessFromSession(sessionId: string, processKey: string) returns (r: Outcome<SessionError>)
      requires Valid()
      modifies sessions.Values
      ensures Valid() && sessions == old(sessions)
      ensures r.Fail? <==> sessionId in old(Sessions()) && processKey !in old(Sessions())[sessionId].processes
      ensures r.Fail? ==> r.error == NotInList(processKey)
      ensures Sessions() == if r.Pass? && sessionId in old(Sessions())
        then old(Sessions())[sessionId := old(Sessions())[sessionId].(processes := RemoveFirst(old(Sessions())[sessionId].processes, processKey))]
        else old(Sessions())
    {
      if sessionId in sessions {
        var session := sessions[sessionId];
        if processKey !in session.processes {
          return Fail(NotInList(processKey));
        }
        session.processes := RemoveFirst(session.processes, processKey);
      }
      return Pass;
    }

    /** The ids of the sessions `cleanup_inactive_sessions` drops, in no particular order. */
    method IdleSessionIds(now: int, maxAgeHours: int) returns (toRemove: seq<string>)
      ensures forall id :: id in toRemove <==> id in sessions && Idle(sessions[id].Record(), now, maxAgeHours)
    {
      toRemove := [];
      var pending := sessions.Keys;
      while pending != {}
        invariant pending <= sessions.Keys
        invariant forall id :: id in toRemove <==>
          id in sessions && id !in pending && Idle(sessions[id].Record(), now, maxAgeHours)
        decreases pending
      {
        var id :| id in pending;
        var ageSeconds := now - sessions[id].lastActive;
        if ageSeconds > maxAgeHours * SecondsPerHour {
          toRemove := toRemove + [id];
        }
        pending := pending - {id};
      }
    }

    /** Drops the sessions idle for more than `maxAgeHours`; the others keep their records,
        job lists included. */
    method CleanupInactiveSessions(now: int, maxAgeHours: int := DefaultMaxAgeHours)
      requires Valid()
      modifies this
      ensures Valid()
      ensures Sessions() == Active(old(Sessions()), now, maxAgeHours)
      ensures forall id :: id in sessions ==> id in old(sessions) && sessions[id] == old(sessions[id])
    {
      var toRemove := IdleSessionIds(now, maxAgeHours);
      var i := 0;
      while i < |toRemove|
        invariant 0 <= i <= |toRemove|
        invariant forall id :: id in sessions <==> id in old(sessions) && id !in toRemove[..i]
        invariant forall id :: id in sessions ==> sessions[id] == old(sessions[id])
      {
        sessions := sessions - {toRemove[i]};
        i := i + 1;
      }
      assert toRemove[..i] == toRemove;
      ActiveFromKeys(old(Sessions()), Sessions(), now, maxAgeHours);
    }

    /** The stored session record itself (not a copy), or None for an unknown id. */
    function GetSessionInfo(sessionId: string): (r: Option<Session>)
      reads this
      ensures r.Some? <==> sessionId in sessions
      ensures r.Some? ==> r.value == sessions[sessionId]
    {
      if sessionId in sessions then Some(sessions[sessionId]) else None
    }
  }

  /** Attaching a new job to a session and detaching it again leaves the registry as it was. */
  method AttachThenDetach(m: SessionManager, sessionId: string, processKey: string) returns (r: Outcome<SessionError>)
    requires m.Valid()
    requires sessionId in m.sessions ==> processKey !in m.sessions[sessionId].processes
    modifies m.sessions.Values
    ensures r == Pass && m.Sessions() == old(m.Sessions())
  {
    ghost var before := m.Sessions();
    m.AddProcessToSession(sessionId, processKey);
    ghost var attached := m.Sessions();
    if sessionId in before {
      var s := before[sessionId];
      RemoveFirstAppended(s.processes, processKey);
      assert attached == before[sessionId := s.(processes := s.processes + [processKey])];
    } else {
      assert attached == before;
    }
    r := m.RemoveProcessFromSession(sessionId, processKey);
    if sessionId in before {
      var s := before[sessionId];
      assert m.Sessions() == attached[sessionId := s];
      RestoreEntry(before, sessionId, s.(processes := s.processes + [processKey]));
    }
  }

  /** Putting an entry's old value back after overwriting it gives back the map. */
  lemma RestoreEntry(m: map<string, SessionRecord>, k: string, v: SessionRecord)
    requires k in m
    ensures m[k := v][k := m[k]] == m
  {
  }
}
