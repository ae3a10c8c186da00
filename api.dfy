/** The API's application state and its handlers. The two dictionaries are
    fields updated in place; each session's memory is an object of its own,
    appended to in place. Every handler is one atomic step, proved to follow
    the step function of module Sessions on the abstract table. */
module Api {
  import opened Outcomes
  import opened Validation
  import opened Conversation
  import opened Sessions

  class AppState {
    var agentChains: map<SessionId, Chain>
    var memories: map<SessionId, Memory>

    /** One key set, and no memory object shared by two sessions. */
    ghost predicate Valid()
      reads this
    {
      && agentChains.Keys == memories.Keys
      && forall a, b :: a in memories && b in memories && a != b ==> memories[a] != memories[b]
    }

    /** The table the dictionaries and the memories hold. */
    ghost function Abstract(): Table
      reads this, memories.Values
    {
      Table(agentChains, map id | id in memories :: memories[id].buffer)
    }

    /** The state at process start: no sessions. */
    constructor ()
      ensures Valid() && Abstract() == Table(map[], map[])
    {
      agentChains := map[];
      memories := map[];
    }

    method InitializeSession(sessionId: string, credentials: Option<string>, constructs: bool)
      returns (r: Result<SessionStatus, ApiError>)
      requires Valid()
      modifies this
      ensures Valid()
      ensures (Abstract(), r) == InitStep(old(Abstract()), sessionId, credentials, constructs)
    {
      var auth := GetApiKey(credentials);
      if auth.Failure? {
        return Failure(Unauthorized(auth.error));
      }
      if !ValidSessionId(sessionId) {
        return Failure(InvalidRequest);
      }
      if sessionId in agentChains {
        return Success(Exists);
      }
      var built := GetDietAgentChain(auth.value, constructs);
      if built.None? {
        return Failure(InternalError);
      }
      var (chain, memory) := built.value;
      AddSession(sessionId, chain, memory);
      r := Success(Initialized);
    }

    method Chat(sessionId: string, message: string, credentials: Option<string>, constructs: bool, llm: Model)
      returns (r: Result<string, ApiError>)
      requires Valid()
      modifies this, memories.Values
      ensures Valid()
      ensures (Abstract(), r) == ChatStep(old(Abstract()), sessionId, message, credentials, constructs, llm)
      // memories are updated in place: every existing session keeps its memory object
      ensures forall id :: id in old(memories) ==> id in memories && memories[id] == old(memories)[id]
      ensures sessionId in old(agentChains) ==> memories == old(memories)
    {
      var auth := GetApiKey(credentials);
      if auth.Failure? {
        return Failure(Unauthorized(auth.error));
      }
      if !(ValidMessage(message) && ValidSessionId(sessionId)) {
        return Failure(InvalidRequest);
      }
      if sessionId !in agentChains {
        var built := GetDietAgentChain(auth.value, constructs);
        if built.None? {
          return Failure(InternalError);
        }
        var (chain, memory) := built.value;
        AddSession(sessionId, chain, memory);
      }
      r := Respond(sessionId, message, llm);
    }

    /** Asks the model with the session's chain and history and, when it
        answers, saves the exchange in the session's memory object. */
    method Respond(sessionId: SessionId, message: string, llm: Model) returns (r: Result<string, ApiError>)
      requires Valid() && sessionId in agentChains
      modifies memories.Values
      ensures Valid()
      ensures (Abstract(), r) == Converse(old(Abstract()), sessionId, message, llm)
      ensures agentChains == old(agentChains) && memories == old(memories)
    {
      ghost var before := Abstract();
      var chain := agentChains[sessionId];
      var memory := memories[sessionId];
      var chatHistory := memory.LoadMemoryVariables();
      var response := chain.Invoke(llm, chatHistory, message);
      if response.None? {
        return Failure(InternalError);
      }
      memory.SaveContext(message, response.value);
      assert Abstract().transcripts == before.transcripts[sessionId := memory.buffer] by {
        forall id | id in memories && id != sessionId
          ensures memories[id].buffer == before.transcripts[id]
        {
          assert memories[id] != memory;
        }
      }
      r := Success(response.value);
    }

    method ClearSession(sessionId: string) returns (r: Result<SessionStatus, ApiError>)
      requires Valid()
      modifies this
      ensures Valid()
      ensures (Abstract(), r) == ClearStep(old(Abstract()), sessionId)
    {
      if sessionId in agentChains {
        ghost var before := Abstract();
        agentChains := agentChains - {sessionId};
        memories := memories - {sessionId};
        assert Abstract().transcripts == before.transcripts - {sessionId};
        r := Success(Cleared);
      } else {
        r := Success(NotFound);
      }
    }

    /** The `active_sessions` count of the health report. */
    method HealthCheck() returns (activeSessions: nat)
      requires Valid()
      ensures activeSessions == |agentChains| == |Abstract().transcripts|
    {
      activeSessions := |agentChains|;
      assert Abstract().transcripts.Keys == agentChains.Keys;
    }

    /** The session listing: the active ids and their number. */
    method ListSessions() returns (activeSessions: set<SessionId>, totalSessions: nat)
      requires Valid()
      ensures activeSessions == agentChains.Keys == Abstract().transcripts.Keys
      ensures totalSessions == |activeSessions|
    {
      activeSessions := agentChains.Keys;
      totalSessions := |agentChains|;
    }

    /** Shutdown empties both dictionaries. */
    method Shutdown()
      modifies this
      ensures Valid() && Abstract() == Table(map[], map[])
    {
      agentChains := map[];
      memories := map[];
    }

    /** Stores a new session's chain and fresh memory under `id`. */
    method AddSession(id: SessionId, chain: Chain, memory: Memory)
      requires Valid() && id !in agentChains && memory.buffer == []
      requires forall k :: k in memories ==> memories[k] != memory
      modifies this
      ensures Valid()
      ensures agentChains == old(agentChains)[id := chain] && memories == old(memories)[id := memory]
      ensures Abstract() == Table(old(agentChains)[id := chain], old(Abstract().transcripts)[id := []])
    {
      agentChains := agentChains[id := chain];
      memories := memories[id := memory];
    }
  }
}
