/** The chat controller's session table: lookup of a conversation's history, eviction of
    sessions idle for longer than a maximum age, and the count of live sessions. Times
    are milliseconds since the epoch; the clock is a parameter. */
module ChatController {
  import opened Wrappers
  import OpenAiService

  datatype ChatSession = ChatSession(id: string, conversationHistory: seq<OpenAiService.Turn>,
                                     createdAt: int, lastActivity: int)

  /** The answer to a history request. */
  datatype HistoryReply =
    | NotFound(status: int, error: string)
    | History(conversationId: string, history: seq<OpenAiService.Turn>, createdAt: int, lastActivity: int)

  const HourMs := 60 * 60 * 1000

  /** The instant before which sessions are evicted; the age defaults to 24 hours. */
  function Cutoff(now: int, maxAgeHours: Option<int>): int {
    now - (if maxAgeHours.Some? then maxAgeHours.value else 24) * HourMs
  }

  /** The sessions active at or after the cutoff. */
  function Kept(sessions: map<string, ChatSession>, cutoff: int): map<string, ChatSession> {
    map id | id in sessions && sessions[id].lastActivity >= cutoff :: sessions[id]
  }

  /** The ids of the sessions last active before the cutoff. */
  function Expired(sessions: map<string, ChatSession>, cutoff: int): set<string> {
    set id | id in sessions && sessions[id].lastActivity < cutoff
  }

  class ChatControllerImpl {
    var sessions: map<string, ChatSession>

    constructor ()
      ensures sessions == map[]
    {
      sessions := map[];
    }

    /** `getConversationHistory`. */
    function GetConversationHistory(conversationId: string): (r: HistoryReply)
      reads this
      ensures conversationId !in sessions <==> r == NotFound(404, "Conversation not found")
      ensures conversationId in sessions ==>
        var s := sessions[conversationId];
        r == History(s.id, s.conversationHistory, s.createdAt, s.lastActivity)
    {
      if conversationId !in sessions then NotFound(404, "Conversation not found")
      else
        var session := sessions[conversationId];
        History(session.id, session.conversationHistory, session.createdAt, session.lastActivity)
    }

    /** `cleanupOldSessions`: the loop over the entries, deleting each one last active
        before the cutoff. */
    method CleanupOldSessions(now: int, maxAgeHours: Option<int>)
      modifies this
      ensures sessions == Kept(old(sessions), Cutoff(now, maxAgeHours))
    {
      var cutoff := now - (if maxAgeHours.Some? then maxAgeHours.value else 24) * 60 * 60 * 1000;
      var pending := sessions.Keys;
      while pending != {}
        invariant pending <= old(sessions).Keys
        invariant forall id :: id in sessions <==>
          id in old(sessions) && (id in pending || old(sessions)[id].lastActivity >= cutoff)
        invariant forall id :: id in sessions ==> sessions[id] == old(sessions)[id]
        decreases pending
      {
        var id :| id in pending;
        if sessions[id].lastActivity < cutoff {
          sessions := sessions - {id};
        }
        pending := pending - {id};
      }
      assert sessions.Keys == Kept(old(sessions), cutoff).Keys;
    }

    /** `getActiveSessionsCount`. */
    function ActiveSessionsCount(): (n: nat)
      reads this
      ensures n == |sessions.Keys|
    {
      |sessions|
    }
  }

  /** Eviction removes exactly the sessions last active before the cutoff; the others
      stay, unchanged. */
  lemma EvictsExactlyTheIdle(sessions: map<string, ChatSession>, cutoff: int)
    ensures forall id :: id in Kept(sessions, cutoff) <==> id in sessions && id !in Expired(sessions, cutoff)
    ensures forall id :: id in Kept(sessions, cutoff) ==> Kept(sessions, cutoff)[id] == sessions[id]
    ensures Kept(Kept(sessions, cutoff), cutoff) == Kept(sessions, cutoff)
  {
  }

  /** The count drops by the number of evicted sessions. */
  lemma CountAfterCleanup(sessions: map<string, ChatSession>, cutoff: int)
    ensures |Kept(sessions, cutoff).Keys| + |Expired(sessions, cutoff)| == |sessions.Keys|
  {
    var kept := Kept(sessions, cutoff).Keys;
    var expired := Expired(sessions, cutoff);
    assert kept + expired == sessions.Keys;
    assert kept * expired == {};
  }

  /** A longer maximum age keeps every session a shorter one keeps. */
  lemma LongerAgeKeepsMore(sessions: map<string, ChatSession>, now: int, shorter: int, longer: int)
    requires shorter <= longer
    ensures Kept(sessions, Cutoff(now, Some(shorter))).Keys <= Kept(sessions, Cutoff(now, Some(longer))).Keys
  {
  }

  /** With no age given, sessions idle for more than a day are evicted. */
  lemma DefaultAgeIsOneDay(now: int)
    ensures Cutoff(now, None) == now - 86_400_000
  {
  }
}
