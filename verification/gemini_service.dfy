/**
 * The Gemini service as the drafting screen sees it (services/geminiService.ts): what `generateLetter`
 * does with the structured response, and the one module-level chat session that `initializeChat`
 * replaces and `sendMessageToChat` uses. The calls into the Gemini SDK are not modelled; each call's
 * outcome is a parameter of type `Upstream`.
 */
module GeminiService {
  import opened Wrappers
  import opened Types
  import JsText

  /** The model both the generation request and the chat session are created with. */
  const ModelName := "gemini-2.5-flash"

  /** The message of the error `generateLetter` throws when the response has no text. */
  const NoResponseMessage := "No response generated"

  /** The message of the error `sendMessageToChat` throws before any `initializeChat`. */
  const NotInitializedMessage := "Chat session not initialized"

  /** The reply `sendMessageToChat` substitutes for an empty or missing model reply. */
  const FallbackReply := "I'm sorry, I couldn't process that."

  /**
   * The outcome of one awaited Gemini call: the response's `text` property, which the SDK
   * may leave undefined or empty, or the message of the error the call rejected with.
   */
  type Upstream = Result<Option<string>, string>

  /** The JSON types the response schema uses. */
  datatype SchemaType = ObjectType | StringType

  /** A response schema: an object type, its named properties with their types, and the required names. */
  datatype Schema = Schema(kind: SchemaType, properties: seq<(string, SchemaType)>, required: seq<string>)

  /** The schema `generateLetter` asks the model to follow. */
  const LetterSchema := Schema(
    ObjectType,
    [("chineseLogicDraft", StringType), ("englishLetter", StringType), ("grammarAnalysis", StringType)],
    ["chineseLogicDraft", "englishLetter", "grammarAnalysis"])

  /** The string a `GeneratedContent` holds under a JSON property name, if it has that property. */
  function Field(c: GeneratedContent, name: string): Option<string> {
    if name == "chineseLogicDraft" then Some(c.chineseLogicDraft)
    else if name == "englishLetter" then Some(c.englishLetter)
    else if name == "grammarAnalysis" then Some(c.grammarAnalysis)
    else None
  }

  /**
   * The schema describes exactly the record the service returns: an object whose properties are
   * the three `GeneratedContent` fields, each a string, all of them required.
   */
  lemma LetterSchemaMatchesContent(c: GeneratedContent)
    ensures LetterSchema.kind == ObjectType
    ensures |LetterSchema.properties| == 3
    ensures forall k :: 0 <= k < |LetterSchema.properties| ==> LetterSchema.properties[k].1 == StringType
    ensures forall k :: 0 <= k < |LetterSchema.properties| ==> LetterSchema.required[k] == LetterSchema.properties[k].0
    ensures |LetterSchema.required| == 3
    ensures forall name :: name in LetterSchema.required <==> Field(c, name).Some?
  {
  }

  /**
   * What `generateLetter` does once the request settles. A rejected request rethrows its error;
   * a response whose text is undefined or empty throws "No response generated"; otherwise the
   * text goes to `JSON.parse`, modelled as `parse`, whose result or error is passed on unchanged.
   */
  function GenerateLetter(response: Upstream, parse: string -> Result<GeneratedContent, string>): (r: Result<GeneratedContent, string>)
    ensures response.Err? ==> r == Err(response.error)
    ensures response.Ok? && (response.value.None? || response.value.value == "") ==> r == Err(NoResponseMessage)
    ensures response.Ok? && response.value.Some? && response.value.value != "" ==> r == parse(response.value.value)
    ensures r.Ok? ==> response.Ok? && response.value.Some? && response.value.value != ""
                      && parse(response.value.value) == r
  {
    match response
    case Err(e) => Err(e)
    case Ok(text) =>
      if text.None? || text.value == "" then Err(NoResponseMessage) else parse(text.value)
  }

  /** The reply `sendMessageToChat` returns for a settled send: the model's text, or the fallback when that is empty. */
  function ReplyText(text: Option<string>): (r: string)
    ensures r != ""
    ensures text.Some? && text.value != "" ==> r == text.value
    ensures r != FallbackReply ==> text == Some(r)
  {
    if text.Some? && text.value != "" then text.value else FallbackReply
  }

  /** The fixed framing of the chat session's system instruction, up to where the letter is spliced in. */
  const InstructionPreamble :=
    "You are an assistant helping a user refine a recommendation letter. \n"
    + "      The current letter context is provided. \n"
    + "      When the user asks to change something, output the *Revised English Letter Only* if they ask for a rewrite, or answer their question politely.\n"
    + "      If you rewrite the letter, please keep the strict structure (To Whom It May Concern, On the one hand, On the other hand, Given...) unless explicitly told otherwise.\n"
    + "      \n"
    + "      Current Letter Context:\n"
    + "      "

  /** The system instruction of a chat session seeded with `context`: the fixed framing, then `context` verbatim. */
  function SystemInstruction(context: string): string
  {
    InstructionPreamble + context
  }

  /**
   * The instruction is the framing followed by the seed and nothing else, so it contains the seed.
   * Kept apart from `SystemInstruction` so that callers that only pass the instruction along do not
   * carry these facts.
   */
  lemma SystemInstructionFramesSeed(context: string)
    ensures InstructionPreamble <= SystemInstruction(context)
    ensures |context| <= |SystemInstruction(context)| && SystemInstruction(context)[|SystemInstruction(context)| - |context|..] == context
    ensures |SystemInstruction(context)| == |InstructionPreamble| + |context|
    ensures JsText.Contains(SystemInstruction(context), context)
  {
    JsText.OccursImpliesContains(SystemInstruction(context), context, |InstructionPreamble|);
  }

  /** Distinct letters give distinct system instructions, so a session identifies the letter it was seeded with. */
  lemma SystemInstructionInjective(a: string, b: string)
    requires SystemInstruction(a) == SystemInstruction(b)
    ensures a == b
  {
    assert a == SystemInstruction(a)[|InstructionPreamble|..];
  }

  /** A chat session as created by `ai.chats.create`: its model and its system instruction. */
  datatype Chat = Chat(model: string, systemInstruction: string)

  /** The module-level state of the service: the single, initially null, chat session. */
  class ChatService {
    var chatSession: Option<Chat>
    /** How many sessions `ai.chats.create` has made so far; each one is a new object, even for the same letter. */
    ghost var sessionsCreated: nat

    /** Loading the module: no session yet. */
    constructor ()
      ensures chatSession == None && sessionsCreated == 0
    {
      chatSession := None;
      sessionsCreated := 0;
    }

    /** `initializeChat`: replaces whatever session there was by a newly created one seeded with `initialContext`. */
    method InitializeChat(initialContext: string)
      modifies this
      ensures chatSession == Some(Chat(ModelName, SystemInstruction(initialContext)))
      ensures sessionsCreated == old(sessionsCreated) + 1
    {
      chatSession := Some(Chat(ModelName, SystemInstruction(initialContext)));
      sessionsCreated := sessionsCreated + 1;
    }

    /**
     * `sendMessageToChat(message)`: throws "Chat session not initialized" without calling the model
     * when there is no session; otherwise `response` is what sending `message` on the session gave,
     * and a rejection is rethrown while a settled reply is never empty.
     */
    method SendMessage(message: string, response: Upstream) returns (r: Result<string, string>)
      ensures chatSession.None? ==> r == Err(NotInitializedMessage)
      ensures chatSession.Some? && response.Err? ==> r == Err(response.error)
      ensures chatSession.Some? && response.Ok? ==> r == Ok(ReplyText(response.value))
      ensures r.Ok? ==> r.value != ""
    {
      if chatSession.None? {
        return Err(NotInitializedMessage);
      }
      match response
      case Err(e) =>
        r := Err(e);
      case Ok(text) =>
        r := Ok(ReplyText(text));
    }
  }
}
