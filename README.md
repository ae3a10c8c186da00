# AI Dietitian API: the session table

The AI Dietitian API puts a language model behind a fixed interview script. It
keeps one conversation per caller-chosen session id. The state is two
process-wide dictionaries keyed by session id:
- `agent_chains` holds each session's chain: the prompt template piped into a model client built for one API key.
- `memories` holds each session's conversation buffer memory. The library keeps it as a list of human and AI messages. The model abstracts that list as the sequence of (input, output) exchanges saved into it, and `History` gives back the message list.

Five handlers read or change the dictionaries:
- Initialize creates a session unless the id is already taken.
- Chat creates a missing session, asks the model and saves the exchange.
- Clear deletes a session.
- Health and list report on the keys.

Initialize and chat first pass the bearer API-key check and the request-field rules. These are the session-id rule for both, and the message length bound for chat. Clear, health and list run without any key, id or message check.

This project models that core in Dafny:

- `outcomes.dfy` (module `Outcomes`): `Option` and `Result`.
- `validation.dfy` (module `Validation`): the request-field rules and the API-key check, as pure predicates and functions.
- `conversation.dfy` (module `Conversation`):
  - the saved exchanges and the messages they replay (`History`);
  - the prompt (`Prompt`: system instructions, history, new input);
  - the in-place `Memory` class with `SaveContext`;
  - the chain, a value bound to its API key;
  - the chain factory `GetDietAgentChain`.
- `sessions.dfy` (module `Sessions`):
  - the table as a value, with the two maps and their shared-key invariant `Valid`;
  - one step function per table-changing handler (`InitStep`, `ChatStep`, `ClearStep`), whose `ensures` state what the handler promises;
  - lemmas that relate several requests.
- `api.dfy` (module `Api`): the class `AppState`. Each handler reassigns the two map fields; this stands for the source's in-place dict updates. Each session's `Memory` object is appended to in place.
  - `InitializeSession`, `Chat` and `ClearSession` each `ensure` that their reply and the table they leave equal the matching step function applied to the old table.
  - `HealthCheck` and `ListSessions` only read. Their `ensures` tie what they report to the key set.
  - `Shutdown` `ensures` that both maps are empty.

The model stands in for external calls as follows:
- Building a chain may fail. This is the `constructs` flag.
- The model call is an opaque `Model` function from (chain, prompt) to `Option<string>`. `None` means the call raised.
- Missing bearer credentials are `credentials == None`.

Three points in the source's own behaviour are worth stating:
- The session-id validator's error text (api.py:89, 105) describes the rule as "only alphanumeric characters, hyphens, and underscores". The test it applies (api.py:88, 104) is stricter: it strips `-` and `_` and calls `isalnum()`, which is false on the empty string. So an id made only of hyphens and underscores, such as `"---"`, is rejected although it contains only the characters the message names. `Validation.ValidSessionId` and `Validation.SeparatorOnlyIdRejected` state the rule as tested.
- `clear_session` takes its id from the path (api.py:274) and applies no session-id validation. A missing id gives the status `not_found` (api.py:283-285) rather than an error. `ClearStep` accepts every string.
- A chat on an existing session reuses the chain stored at creation (api.py:233-240). The model is therefore called with the key of the request that created the session, not the key of the current request. `ChatStep` states this, and `Sessions.KnownSessionUsesStoredChain` proves that the current request's key has no effect on such a chat.

FastAPI resolves the key dependency before it validates the request body. The model therefore reports a missing or malformed key (401) before an invalid body (422).

## Model

| member | source | states |
|---|---|---|
| `Validation.RemoveAll` | api.py:88 | `s.replace(c, '')` keeps exactly the characters of `s` other than `c`, and is no longer than `s` |
| `Validation.StrippedIdIsAlnum` | api.py:104 | after stripping `-` and `_`, `isalnum()` holds iff every character of the id is alphanumeric, `-` or `_`, and at least one is alphanumeric |
| `Validation.ValidSessionId` | api.py:83-90 | the `session_id` field rule of both request models: accepted iff the length is 1-100, every character is alphanumeric, `-` or `_`, and at least one character is alphanumeric |
| `Validation.SeparatorOnlyIdRejected` | api.py:99-106 | an id made only of `-` and `_` is rejected, because nothing is left for `isalnum` |
| `Validation.ValidMessage` | api.py:82 | an accepted chat message is never empty, and one longer than 2000 characters is never accepted |
| `Validation.GetApiKey` | api.py:121-136 | missing credentials give MissingCredentials; otherwise the key is accepted iff it starts with "AI", and is then returned unchanged |
| `Conversation.History` | api.py:244 | the history replayed from memory has two messages per saved exchange, human then AI, in save order, and never a system message |
| `Conversation.HistoryAppend` | api.py:255 | saving one exchange extends the history by exactly its human and AI messages |
| `Conversation.Prompt` | tool.py:31-35 | the template's prompt is two messages longer than the history, opens with the system instructions and ends with the new human input; given a history without system messages, the instructions occur only at the head |
| `Conversation.PromptHoldsHistory` | tool.py:31-35 | between the system instructions and the new input, the prompt holds exactly the given history, for every history |
| `Conversation.PromptShape` | tool.py:31-35 | the prompt for a saved transcript is the system instructions once at the head, then every saved exchange in order, then the new input last |
| `Conversation.PromptReplay` | api.py:244-255 | the prompt of the next turn is the previous turn's whole prompt followed by the reply and the next input |
| `Conversation.Memory.constructor` | tool.py:38 | a new buffer memory holds no exchanges |
| `Conversation.Memory.LoadMemoryVariables` | api.py:244 | the loaded chat history has a human and an AI message per saved exchange, in save order |
| `Conversation.Memory.SaveContext` | api.py:255 | the memory's buffer gains exactly the (input, output) exchange at its end |
| `Conversation.GetDietAgentChain` | tool.py:24-42 | either fails, or returns a chain bound to the given key and a fresh memory with an empty buffer |
| `Sessions.InitStep` | api.py:181-220 | a bad key gives 401 and an invalid id gives 422, both with the table untouched. An existing id gives "exists" with nothing changed (no reset). A new id is stored in both maps, with an empty transcript and a chain for the caller's key, and gives "initialized". A chain that cannot be built for a new id gives 500 and changes nothing. No other session changes, and the shared key set is preserved |
| `Sessions.ChatStep` | api.py:222-271 | a bad key gives 401 and an invalid message or id gives 422, with the table untouched; every later failure is a 500. An unknown session whose chain cannot be built is a 500 with nothing stored. Otherwise an unknown session is stored first, with the caller's key and an empty transcript, and is left created whatever the model does. A known session keeps its chain. The chat succeeds exactly when the model answers the prompt of the old transcript and the new input; the reply is that answer, and exactly that exchange is appended. On failure nothing is appended. No other session changes, and the shared key set is preserved |
| `Sessions.ClearStep` | api.py:273-299 | for any id, without validation, the id leaves both maps and the reply is "cleared" if it was present; a missing id gives "not_found" with the table unchanged |
| `Sessions.InitIdempotent` | api.py:190-197 | after a successful init, a second authorised init of the same id reports "exists" and leaves the table unchanged |
| `Sessions.AutoInitMatchesExplicitInit` | api.py:232-237 | a chat with a well-formed message on an unknown id gives the same reply and table as an explicit init followed by that chat |
| `Sessions.ChatRejectsMessageOutOfBounds` | api.py:82 | an authorised chat with an empty message or one over 2000 characters gets 422 and leaves the table unchanged |
| `Sessions.KnownSessionUsesStoredChain` | api.py:233-250 | a chat on a known session gives the same reply and table for any two well-formed keys and either chain-construction outcome, because the chain stored at creation is the one invoked |
| `Sessions.Serve` | api.py:28-32 | after any sequence of init, chat and clear requests, the two maps still share one key set |
| `Sessions.ChatAppendsOne` | api.py:239-255 | one authorised, well-formed chat on a session present in both maps, with a model that answers, appends exactly one exchange for that message to its transcript, keeps the old transcript as a prefix and keeps the session in both maps |
| `Sessions.SuccessfulChatsAppend` | api.py:240-264 | N chats on an existing session whose model always answers append N exchanges in order, one per message, keep the old transcript as a prefix, and grow the history by 2N messages |
| `Api.AppState.constructor` | api.py:28-32 | the state starts with no sessions and with both maps sharing one key set |
| `Api.AppState.InitializeSession` | api.py:181-220 | the reply and the new table are those of `InitStep` on the old table, and the invariant (one key set, no memory shared between sessions) is kept |
| `Api.AppState.Chat` | api.py:222-271 | the reply and the new table are those of `ChatStep` on the old table. Every existing session keeps its memory object, and for a known session the memories map is unchanged, so the exchange is appended to the memory object in place |
| `Api.AppState.Respond` | api.py:239-264 | with the session's chain in place, the model is asked with the session's stored chain and history; on an answer the exchange is saved into the session's memory object, and the map fields stay the same |
| `Api.AppState.AddSession` | api.py:203-204 | a new session's chain and fresh, empty memory are stored under the id in both maps, keeping one key set and unshared memories |
| `Api.AppState.ClearSession` | api.py:273-299 | the reply and the new table are those of `ClearStep` on the old table |
| `Api.AppState.HealthCheck` | api.py:169-179 | the reported `active_sessions` is the number of keys of `agent_chains`, which is also the number of transcripts |
| `Api.AppState.ListSessions` | api.py:301-308 | the listed ids are exactly the keys of both maps, and `total_sessions` is their number |
| `Api.AppState.Shutdown` | api.py:44-48 | shutdown leaves both maps empty |

## Left out

- FastAPI plumbing is not modelled: app construction, middleware, routing, the root endpoint, the server start and logging. The global exception handler's JSON body is also left out. Errors are modelled as their kind and HTTP status only (`ApiError`). Exception text echoed in the 500 details is not modelled.
- Timestamps, `startup_time` and `uptime_seconds` are clock reads and floating point. The health report is modelled by its session count only.
- The language model, the prompt template and the buffer memory are library code. They are modelled as an opaque `Model` function, the `Prompt` list and the `Memory` class. The text of the system prompt is static configuration and is one opaque `SystemPrompt` message.
- The unused `ChatMessage` request model (role pattern, non-empty content) is not modelled. No handler uses it.
- `Validation.IsAlnumChar`: this is an ASCII approximation of Python's Unicode-aware `str.isalnum`. Non-ASCII letters and digits that Python accepts are rejected by the model.
- Handlers are `async`, but none of the bodies of `initialize_session`, `chat` or `clear_session` awaits (api.py:187-220, 228-271, 276-299). `agent_chain.invoke` (api.py:247) is a synchronous call that blocks the event loop. Within one process, each handler therefore runs to completion before another touches the dictionaries. So modelling each handler as one atomic step, with `Serve` running requests one after another, is exact. This includes concurrent chats on one session, which `SuccessfulChatsAppend` covers. Not modelled: a deployment with several worker processes, each of which would hold its own table.
- `ListSessions` returns a set. The insertion order of Python's key list is not modelled.
- The Streamlit front end (app.py) is not part of this model. It keeps a single implicit session in the UI's session state.
