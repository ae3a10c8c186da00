/** The session table as a value, and one function per handler that gives
    the handler's reply and the table it leaves behind. The class in module
    Api is proved to follow these functions; the properties of the handlers
    are stated and proved here. */
module Sessions {
  import opened Outcomes
  import opened Validation
  import opened Conversation

  type SessionId = string

  /** The two process-wide dictionaries: each session's chain and each
      session's saved exchanges. */
  datatype Table = Table(chains: map<SessionId, Chain>, transcripts: map<SessionId, seq<Exchange>>) {

    /** The dictionaries share one key set. */
    predicate Valid() {
      chains.Keys == transcripts.Keys
    }
  }

  /** The `status` field of a session response: "initialized", "exists",
      "cleared" or "not_found". */
  datatype SessionStatus = Initialized | Exists | Cleared | NotFound

  /** How a request fails: 401 from the key check, 422 from request
      validation, 500 from an exception inside a handler. */
  datatype ApiError = Unauthorized(cause: AuthFailure) | InvalidRequest | InternalError {
    function StatusCode(): int {
      match this
      case Unauthorized(_) => 401
      case InvalidRequest => 422
      case InternalError => 500
    }
  }

  /** The transcript a session has, or the empty one it would be given. */
  function TranscriptOf(t: Table, id: SessionId): seq<Exchange> {
    if id in t.transcripts then t.transcripts[id] else []
  }

  /** A chat request that passes the key check and request validation. */
  predicate ChatAdmitted(sessionId: string, message: string, credentials: Option<string>) {
    GetApiKey(credentials).Success? && ValidMessage(message) && ValidSessionId(sessionId)
  }

  /** The chain a chat on `id` uses: the stored one, or one built for `key`. */
  function ChainFor(t: Table, id: SessionId, key: string): Chain {
    if id in t.chains then t.chains[id] else Chain(key)
  }

  /** A new session: the chain built for `key` and a fresh, empty memory,
      stored under `id` in both dictionaries. */
  function Create(t: Table, id: SessionId, key: string): Table {
    Table(t.chains[id := Chain(key)], t.transcripts[id := []])
  }

  /** The init-session handler. `constructs` says whether building the chain
      succeeds. */
  function InitStep(t: Table, sessionId: string, credentials: Option<string>, constructs: bool)
    : (r: (Table, Result<SessionStatus, ApiError>))
    // refused at the boundary, before the table is touched
    ensures GetApiKey(credentials).Failure? ==> r == (t, Failure(Unauthorized(GetApiKey(credentials).error)))
    ensures GetApiKey(credentials).Success? && !ValidSessionId(sessionId) ==> r == (t, Failure(InvalidRequest))
    // a chain that cannot be built for a new id is a 500, and nothing is stored
    ensures GetApiKey(credentials).Success? && ValidSessionId(sessionId) && sessionId !in t.chains && !constructs ==>
              r == (t, Failure(InternalError))
    ensures r.1.Failure? ==>
              r.1.error.StatusCode() ==
                (if GetApiKey(credentials).Failure? then 401 else if !ValidSessionId(sessionId) then 422 else 500)
    // any failure leaves the table as it was
    ensures r.1.Failure? ==> r.0 == t
    ensures r.1.Success? <==>
              GetApiKey(credentials).Success? && ValidSessionId(sessionId) && (sessionId in t.chains || constructs)
    // an existing session is reported and kept, never reset
    ensures r.1 == Success(Exists) <==> r.1.Success? && sessionId in t.chains
    ensures r.1 == Success(Exists) ==> r.0 == t
    // a new session is stored in both dictionaries, empty, with a chain for the caller's key
    ensures r.1 == Success(Initialized) ==>
              && sessionId !in t.chains
              && r.0.chains == t.chains[sessionId := Chain(GetApiKey(credentials).value)]
              && sessionId in r.0.transcripts && r.0.transcripts[sessionId] == []
    ensures r.1.Success? ==> r.1.value in {Initialized, Exists}
    // no other session is affected, and the key sets stay equal
    ensures r.0.chains - {sessionId} == t.chains - {sessionId}
    ensures r.0.transcripts - {sessionId} == t.transcripts - {sessionId}
    ensures t.Valid() ==> r.0.Valid()
  {
    match GetApiKey(credentials)
    case Failure(cause) => (t, Failure(Unauthorized(cause)))
    case Success(key) =>
      if !ValidSessionId(sessionId) then (t, Failure(InvalidRequest))
      else if sessionId in t.chains then (t, Success(Exists))
      else if !constructs then (t, Failure(InternalError))
      else (Create(t, sessionId, key), Success(Initialized))
  }

  /** The chat handler. `constructs` says whether building a chain for an
      unknown session succeeds; `llm` answers the prompt or fails. A missing
      memory for a known chain (a `KeyError`) surfaces as an internal error. */
  function ChatStep(t: Table, sessionId: string, message: string, credentials: Option<string>,
                    constructs: bool, llm: Model)
    : (r: (Table, Result<string, ApiError>))
    // refused at the boundary, before the table is touched
    ensures GetApiKey(credentials).Failure? ==> r == (t, Failure(Unauthorized(GetApiKey(credentials).error)))
    ensures GetApiKey(credentials).Success? && !(ValidMessage(message) && ValidSessionId(sessionId)) ==>
              r == (t, Failure(InvalidRequest))
    // past the boundary every failure is a 500
    ensures ChatAdmitted(sessionId, message, credentials) && r.1.Failure? ==> r.1.error == InternalError
    ensures r.1.Failure? ==>
              r.1.error.StatusCode() ==
                (if GetApiKey(credentials).Failure? then 401
                 else if !(ValidMessage(message) && ValidSessionId(sessionId)) then 422 else 500)
    // an unknown session whose chain cannot be built: 500, and nothing is stored
    ensures ChatAdmitted(sessionId, message, credentials) && sessionId !in t.chains && !constructs ==>
              r == (t, Failure(InternalError))
    // an unknown session is stored before the model is asked, with a chain for
    // the caller's key, and stays stored whatever the model does
    ensures ChatAdmitted(sessionId, message, credentials) && sessionId !in t.chains && constructs ==>
              && r.0.chains == t.chains[sessionId := Chain(GetApiKey(credentials).value)]
              && sessionId in r.0.transcripts
    // a known session keeps its chain, whatever key this request carries
    ensures sessionId in t.chains ==> r.0.chains == t.chains
    // once the session exists, the chat succeeds exactly when the model answers
    // the old transcript plus the new input
    ensures ChatAdmitted(sessionId, message, credentials) && t.Valid() && (sessionId in t.chains || constructs) ==>
              (r.1.Success? <==>
                 ChainFor(t, sessionId, GetApiKey(credentials).value)
                   .Invoke(llm, History(TranscriptOf(t, sessionId)), message).Some?)
    // a reply is the model's answer, and exactly that exchange is appended
    ensures r.1.Success? && t.Valid() ==>
              && sessionId in r.0.chains && sessionId in r.0.transcripts
              && r.0.chains[sessionId].Invoke(llm, History(TranscriptOf(t, sessionId)), message) == Some(r.1.value)
              && r.0.transcripts[sessionId] == TranscriptOf(t, sessionId) + [Exchange(message, r.1.value)]
    // a failure appends nothing: the transcripts are as they were, except for
    // an auto-created session's empty one
    ensures r.1.Failure? ==> r.0.transcripts == t.transcripts || r.0 == Create(t, sessionId, GetApiKey(credentials).value)
    ensures r.1.Failure? && t.Valid() ==> TranscriptOf(r.0, sessionId) == TranscriptOf(t, sessionId)
    // no other session is affected, and the key sets stay equal
    ensures r.0.chains - {sessionId} == t.chains - {sessionId}
    ensures r.0.transcripts - {sessionId} == t.transcripts - {sessionId}
    ensures t.Valid() ==> r.0.Valid()
  {
    match GetApiKey(credentials)
    case Failure(cause) => (t, Failure(Unauthorized(cause)))
    case Success(key) =>
      if !(ValidMessage(message) && ValidSessionId(sessionId)) then (t, Failure(InvalidRequest))
      else if sessionId !in t.chains && !constructs then (t, Failure(InternalError))
      else Converse(if sessionId in t.chains then t else Create(t, sessionId, key), sessionId, message, llm)
  }

  /** The part of a chat after the session's chain is in place: load the
      memory, ask the model, save the exchange. A missing memory (a
      `KeyError`) and a model call that raises are internal errors. */
  function Converse(t: Table, sessionId: SessionId, message: string, llm: Model): (Table, Result<string, ApiError>)
    requires sessionId in t.chains
  {
    if sessionId !in t.transcripts then (t, Failure(InternalError))
    else
      var buffer := t.transcripts[sessionId];
      match t.chains[sessionId].Invoke(llm, History(buffer), message)
      case None => (t, Failure(InternalError))
      case Some(reply) => (t.(transcripts := t.transcripts[sessionId := buffer + [Exchange(message, reply)]]), Success(reply))
  }

  /** The clear-session handler. The id is not validated. Deleting from the
      chains first and then from the memories, a missing memory (a `KeyError`)
      surfaces as an internal error with the chain already gone. */
  function ClearStep(t: Table, sessionId: string): (r: (Table, Result<SessionStatus, ApiError>))
    ensures r.0.chains == t.chains - {sessionId}
    ensures sessionId !in t.chains ==> r == (t, Success(NotFound))
    ensures t.Valid() ==>
              && r.1 == Success(if sessionId in t.chains then Cleared else NotFound)
              && r.0.transcripts == t.transcripts - {sessionId}
              && r.0.Valid()
  {
    if sessionId in t.chains then
      if sessionId in t.transcripts then
        (Table(t.chains - {sessionId}, t.transcripts - {sessionId}), Success(Cleared))
      else
        (Table(t.chains - {sessionId}, t.transcripts), Failure(InternalError))
    else
      (t, Success(NotFound))
  }

  /** A second successful init of the same id reports `exists` and changes
      nothing, whatever key or chain-construction outcome it meets. */
  lemma InitIdempotent(t: Table, id: string, credentials: Option<string>, constructs: bool,
                       credentials': Option<string>, constructs': bool)
    requires InitStep(t, id, credentials, constructs).1.Success?
    requires GetApiKey(credentials').Success?
    ensures var t1 := InitStep(t, id, credentials, constructs).0;
            InitStep(t1, id, credentials', constructs') == (t1, Success(Exists))
  {
  }

  /** A chat on an unknown session behaves exactly as an explicit init
      followed by the same chat. */
  lemma AutoInitMatchesExplicitInit(t: Table, id: string, message: string, credentials: Option<string>,
                                    constructs: bool, llm: Model)
    requires t.Valid() && id !in t.chains && ValidMessage(message)
    ensures ChatStep(t, id, message, credentials, constructs, llm)
         == ChatStep(InitStep(t, id, credentials, constructs).0, id, message, credentials, constructs, llm)
  {
  }

  /** An authorised chat whose message is empty or longer than 2000
      characters is refused with 422 before the table is touched, whatever
      the session id. */
  lemma ChatRejectsMessageOutOfBounds(t: Table, id: string, message: string, credentials: Option<string>,
                                      constructs: bool, llm: Model)
    requires GetApiKey(credentials).Success?
    requires message == [] || |message| > MaxMessageLength
    ensures ChatStep(t, id, message, credentials, constructs, llm) == (t, Failure(InvalidRequest))
  {
  }

  /** A chat on a known session does not depend on the request's key or on
      whether a chain could be built: it uses the chain stored when the
      session was created, so any two well-formed keys give the same reply
      and table. */
  lemma KnownSessionUsesStoredChain(t: Table, id: string, message: string, key1: string, key2: string,
                                    constructs1: bool, constructs2: bool, llm: Model)
    requires id in t.chains && KeyPrefix <= key1 && KeyPrefix <= key2
    ensures ChatStep(t, id, message, Some(key1), constructs1, llm)
         == ChatStep(t, id, message, Some(key2), constructs2, llm)
  {
  }

  /** One request to the table-changing handlers, with the outcomes of its
      external calls. */
  datatype Request =
    | InitRequest(sessionId: string, credentials: Option<string>, constructs: bool)
    | ChatRequest(sessionId: string, message: string, credentials: Option<string>, constructs: bool, llm: Model)
    | ClearRequest(sessionId: string)

  /** The table after one request. */
  function Apply(t: Table, req: Request): Table {
    match req
    case InitRequest(id, credentials, constructs) => InitStep(t, id, credentials, constructs).0
    case ChatRequest(id, message, credentials, constructs, llm) => ChatStep(t, id, message, credentials, constructs, llm).0
    case ClearRequest(id) => ClearStep(t, id).0
  }

  /** The table after a sequence of requests handled one at a time. Whatever
      the requests, the two dictionaries keep one key set. */
  function Serve(t: Table, reqs: seq<Request>): (t': Table)
    ensures t.Valid() ==> t'.Valid()
    decreases |reqs|
  {
    if reqs == [] then t else Serve(Apply(t, reqs[0]), reqs[1..])
  }

  /** Chat requests for `id`, one per message. */
  function ChatRequests(id: string, messages: seq<string>, credentials: Option<string>, llm: Model): seq<Request>
    decreases |messages|
  {
    if messages == [] then []
    else [ChatRequest(id, messages[0], credentials, false, llm)] + ChatRequests(id, messages[1..], credentials, llm)
  }

  /** `t1` is `t0` with exactly one exchange, for `message`, appended to the
      transcript of session `id`, which stays in both maps. */
  ghost predicate AppendsOne(t0: Table, t1: Table, id: string, message: string) {
    && id in t1.chains && id in t0.transcripts && id in t1.transcripts
    && |t1.transcripts[id]| == |t0.transcripts[id]| + 1
    && t1.transcripts[id][..|t0.transcripts[id]|] == t0.transcripts[id]
    && t1.transcripts[id][|t0.transcripts[id]|].input == message
  }

  /** One chat on an existing session whose model answers appends exactly
      one exchange, for that message, and keeps the session. */
  lemma ChatAppendsOne(t: Table, id: string, message: string, key: string, llm: Model)
    requires id in t.chains && id in t.transcripts && ValidSessionId(id)
    requires KeyPrefix <= key && ValidMessage(message)
    requires forall c, p :: llm(c, p).Some?
    ensures AppendsOne(t, Apply(t, ChatRequest(id, message, Some(key), false, llm)), id, message)
  {
  }

  /** Growing a transcript by one exchange for the first message and then by
      one per remaining message grows it by one exchange per message, in
      order. */
  lemma ExtendTwice(before: seq<Exchange>, mid: seq<Exchange>, after: seq<Exchange>, messages: seq<string>)
    requires |messages| > 0
    requires |mid| == |before| + 1 && mid[..|before|] == before && mid[|before|].input == messages[0]
    requires |after| == |mid| + |messages| - 1 && after[..|mid|] == mid
    requires forall i :: 0 <= i < |messages| - 1 ==> after[|mid| + i].input == messages[1..][i]
    ensures |after| == |before| + |messages| && after[..|before|] == before
    ensures forall i :: 0 <= i < |messages| ==> after[|before| + i].input == messages[i]
  {
    assert after[..|before|] == mid[..|before|];
    forall i | 0 <= i < |messages|
      ensures after[|before| + i].input == messages[i]
    {
      if i == 0 {
        assert after[|before|] == mid[|before|];
      } else {
        assert after[|before| + i] == after[|mid| + (i - 1)];
        assert messages[1..][i - 1] == messages[i];
      }
    }
  }

  /** The table after applying `step` once per message, in order. */
  function Fold(step: (Table, string) -> Table, t: Table, messages: seq<string>): Table
    decreases |messages|
  {
    if messages == [] then t else Fold(step, step(t, messages[0]), messages[1..])
  }

  /** Any step that appends one exchange per well-formed message appends,
      over a whole sequence of messages, one exchange per message, in order. */
  lemma {:induction false} FoldAppends(step: (Table, string) -> Table, t: Table, id: string, messages: seq<string>)
    requires id in t.chains && id in t.transcripts
    requires forall i :: 0 <= i < |messages| ==> ValidMessage(messages[i])
    requires forall t0: Table, m {:trigger step(t0, m)} ::
               id in t0.chains && id in t0.transcripts && ValidMessage(m) ==> AppendsOne(t0, step(t0, m), id, m)
    ensures var t' := Fold(step, t, messages);
      && id in t'.transcripts
      && |t'.transcripts[id]| == |t.transcripts[id]| + |messages|
      && t'.transcripts[id][..|t.transcripts[id]|] == t.transcripts[id]
      && (forall i :: 0 <= i < |messages| ==> t'.transcripts[id][|t.transcripts[id]| + i].input == messages[i])
    decreases |messages|
  {
    if messages != [] {
      var t1 := step(t, messages[0]);
      assert AppendsOne(t, t1, id, messages[0]);
      FoldAppends(step, t1, id, messages[1..]);
      ExtendTwice(t.transcripts[id], t1.transcripts[id], Fold(step, t, messages).transcripts[id], messages);
    }
  }

  /** Serving chat requests for `id` is folding the chat step over the messages. */
  lemma {:induction false} ServeChatsIsFold(step: (Table, string) -> Table, t: Table, id: string, messages: seq<string>,
                                            key: string, llm: Model)
    requires forall t0: Table, m :: step(t0, m) == Apply(t0, ChatRequest(id, m, Some(key), false, llm))
    ensures Serve(t, ChatRequests(id, messages, Some(key), llm)) == Fold(step, t, messages)
    decreases |messages|
  {
    if messages != [] {
      var reqs := ChatRequests(id, messages, Some(key), llm);
      assert reqs[1..] == ChatRequests(id, messages[1..], Some(key), llm);
      ServeChatsIsFold(step, step(t, messages[0]), id, messages[1..], key, llm);
    }
  }

  /** N chats on one existing session whose model always answers append N
      exchanges, one per message and in order, to the old transcript: its
      history grows by 2N messages. */
  lemma SuccessfulChatsAppend(t: Table, id: string, messages: seq<string>, key: string, llm: Model)
    requires t.Valid() && id in t.chains && ValidSessionId(id) && KeyPrefix <= key
    requires forall i :: 0 <= i < |messages| ==> ValidMessage(messages[i])
    requires forall c, p :: llm(c, p).Some?
    ensures var t' := Serve(t, ChatRequests(id, messages, Some(key), llm));
      && id in t'.transcripts
      && |t'.transcripts[id]| == |t.transcripts[id]| + |messages|
      && t'.transcripts[id][..|t.transcripts[id]|] == t.transcripts[id]
      && (forall i :: 0 <= i < |messages| ==> t'.transcripts[id][|t.transcripts[id]| + i].input == messages[i])
      && |History(t'.transcripts[id])| == |History(t.transcripts[id])| + 2 * |messages|
  {
    var step := (t0: Table, m: string) => Apply(t0, ChatRequest(id, m, Some(key), false, llm));
    forall t0: Table, m | id in t0.chains && id in t0.transcripts && ValidMessage(m)
      ensures AppendsOne(t0, step(t0, m), id, m)
    {
      ChatAppendsOne(t0, id, m, key, llm);
    }
    FoldAppends(step, t, id, messages);
    ServeChatsIsFold(step, t, id, messages, key, llm);
  }
}
