/** One session's conversation machinery: the buffer memory that records
    (input, output) pairs, the message list it hands back, the prompt the chain
    sends to the model, and the factory that builds a chain and a memory. */
module Conversation {
  import opened Outcomes

  /** One saved turn: the user's input and the model's output. */
  datatype Exchange = Exchange(input: string, output: string)

  /** A prompt message. The fixed system instructions are one opaque message;
      their text is configuration and is not modelled. */
  datatype Message = SystemPrompt | Human(content: string) | Ai(content: string)

  /** The chat history a buffer memory returns as messages: each saved
      exchange becomes a human message followed by an AI message. */
  function History(buffer: seq<Exchange>): (h: seq<Message>)
    ensures |h| == 2 * |buffer|
    ensures forall i :: 0 <= i < |buffer| ==>
              h[2 * i] == Human(buffer[i].input) && h[2 * i + 1] == Ai(buffer[i].output)
    ensures forall m :: m in h ==> !m.SystemPrompt?
  {
    if buffer == [] then []
    else [Human(buffer[0].input), Ai(buffer[0].output)] + History(buffer[1..])
  }

  /** Saving one more exchange extends the history by exactly its two messages. */
  lemma {:induction false} HistoryAppend(buffer: seq<Exchange>, e: Exchange)
    ensures History(buffer + [e]) == History(buffer) + [Human(e.input), Ai(e.output)]
  {
    if buffer != [] {
      assert (buffer + [e])[1..] == buffer[1..] + [e];
      HistoryAppend(buffer[1..], e);
    }
  }

  /** The chain's prompt template: the system instructions, then the chat
      history, then the new human input. */
  function Prompt(chatHistory: seq<Message>, input: string): (p: seq<Message>)
    ensures |p| == |chatHistory| + 2
    ensures p[0] == SystemPrompt && p[|p| - 1] == Human(input)
    ensures (forall m :: m in chatHistory ==> !m.SystemPrompt?) ==>
              forall i :: 1 <= i < |p| ==> !p[i].SystemPrompt?
  {
    [SystemPrompt] + chatHistory + [Human(input)]
  }

  /** Between the system instructions and the new input, the prompt holds
      exactly the given history. */
  lemma PromptHoldsHistory(chatHistory: seq<Message>, input: string)
    ensures Prompt(chatHistory, input)[1..|chatHistory| + 1] == chatHistory
  {
  }

  /** The prompt for a session holds the system instructions once, at the
      head, then every saved exchange in order, then the new input. */
  lemma PromptShape(buffer: seq<Exchange>, input: string)
    ensures var p := Prompt(History(buffer), input);
      && |p| == 2 * |buffer| + 2
      && p[0] == SystemPrompt
      && p[|p| - 1] == Human(input)
      && (forall i :: 1 <= i < |p| ==> !p[i].SystemPrompt?)
      && (forall i :: 0 <= i < |buffer| ==>
            p[2 * i + 1] == Human(buffer[i].input) && p[2 * i + 2] == Ai(buffer[i].output))
  {
  }

  /** Every turn replays the previous turn's whole prompt: once an exchange
      is saved, the next prompt is the previous one followed by the reply and
      the next input. */
  lemma PromptReplay(buffer: seq<Exchange>, input: string, reply: string, next: string)
    ensures Prompt(History(buffer + [Exchange(input, reply)]), next)
         == Prompt(History(buffer), input) + [Ai(reply), Human(next)]
  {
    HistoryAppend(buffer, Exchange(input, reply));
  }

  /** A chain: the prompt template piped into a model client built for one
      API key. It keeps that key for its whole life. */
  datatype Chain = Chain(apiKey: string) {

    /** `chain.invoke`: format the prompt and ask the model, through this
        chain and so with the key it was built for. */
    function Invoke(llm: Model, chatHistory: seq<Message>, input: string): Option<string>
    {
      llm(this, Prompt(chatHistory, input))
    }
  }

  /** The model behind a chain, seen from outside: given the chain (and so its
      key) and a prompt, a reply or a failure. */
  type Model = (Chain, seq<Message>) -> Option<string>

  /** A conversation buffer memory, updated in place. */
  class Memory {
    var buffer: seq<Exchange>

    constructor ()
      ensures buffer == []
    {
      buffer := [];
    }

    /** The chat history as messages: a human and an AI message per saved
        exchange, in save order. */
    function LoadMemoryVariables(): (h: seq<Message>)
      reads this
      ensures |h| == 2 * |buffer|
      ensures forall i :: 0 <= i < |buffer| ==>
                h[2 * i] == Human(buffer[i].input) && h[2 * i + 1] == Ai(buffer[i].output)
    {
      History(buffer)
    }

    /** Appends one exchange. */
    method SaveContext(input: string, output: string)
      modifies this
      ensures buffer == old(buffer) + [Exchange(input, output)]
      ensures LoadMemoryVariables() == old(LoadMemoryVariables()) + [Human(input), Ai(output)]
    {
      HistoryAppend(buffer, Exchange(input, output));
      buffer := buffer + [Exchange(input, output)];
    }
  }

  /** The chain factory: a chain bound to `apiKey` and a fresh, empty memory,
      or a failure (client construction raising) when `constructs` is false. */
  method GetDietAgentChain(apiKey: string, constructs: bool) returns (r: Option<(Chain, Memory)>)
    ensures r.Some? <==> constructs
    ensures r.Some? ==> r.value.0 == Chain(apiKey) && fresh(r.value.1) && r.value.1.buffer == []
  {
    if !constructs {
      return None;
    }
    var memory := new Memory();
    r := Some((Chain(apiKey), memory));
  }
}
