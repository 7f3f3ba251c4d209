# Recommendation letter drafting: a Dafny model

This project models the state machine behind RecLetter Pro, a single-screen tool that drafts an
academic recommendation letter with Gemini and then refines it in a chat.

- **Generate.** The screen checks that the professor information and the student material are not
  blank after trimming. It then sets the status to `LOADING` and asks the service for a structured
  document with three strings: a Chinese logic draft, the English letter and a grammar analysis.
  On success it stores the document, seeds a new chat session with the English letter, resets the
  transcript to one greeting from the model, and ends in `SUCCESS`. On failure only the status
  changes, to `ERROR`.
- **Refine.** With non-blank chat input and a document present, the screen clears the input and
  appends the user turn. It then appends exactly one model turn: the reply, or a fixed apology when
  sending throws. A reply that includes "To Whom It May Concern" replaces the English letter and
  nothing else.
- **Service.** The service holds one module-level chat session, null until the first
  `initializeChat`, which replaces it every time. Sending without a session throws "Chat session
  not initialized". An empty reply becomes "I'm sorry, I couldn't process that.". `generateLetter`
  treats an empty response text as an error and rethrows every error.

Modules, one per source file, plus `Wrappers` and `JsText` for the JavaScript built-ins the code uses:

- `Wrappers` and `Types` (types.dfy) hold `Option`, `Result` and the records of types.ts.
  `LetterData` has the two inputs. `GeneratedContent` has the three strings. `ChatMessage` has a
  `Role` that is either `User` or `Model`. `GenerationStatus` has the four states `Idle`,
  `Loading`, `Success` and `Error`.
- `JsText` (js_text.dfy) holds the JavaScript string operations the screen relies on: `trim`,
  whose whitespace set is that of ECMAScript, and `includes`.
- `GeminiService` (gemini_service.dfy) holds the logic of services/geminiService.ts that runs after
  each Gemini call. The module-level `chatSession` becomes the field of a `ChatService` object.
- `LetterApp` (letter_app.dfy) holds the `App` class. Its fields are the screen's state cells, and
  its methods are the two handlers and the three input edits. A ghost `effects` trace records, in
  order, every `setStatus`, `generateLetter`, `initializeChat` and `sendMessageToChat` call. This
  trace states that the status is `Loading` before the request and that blank input makes no call.
  `Valid()` is the invariant kept between handler runs: the status is never `Loading`; with no
  document the transcript is empty; with a document there is a chat session, and the transcript is
  the greeting followed by user/model pairs.

The outcomes of `ai.models.generateContent` and `chatSession.sendMessage` are parameters of type
`GeminiService.Upstream`. Each carries either the response's `text`, which may be undefined, or the
message the call rejected with. `ai.chats.create` is modelled as always succeeding. `JSON.parse` is
a parameter `parse` of type `string -> Result<GeneratedContent, string>`.

Behaviour of the code worth noting:

- The code has no guard against a late chat reply landing after a newer generation. The handlers
  are modelled as atomic steps, and no session-identity check is added.
- The code does not check that the parsed JSON has the three fields, or that they are non-empty.
  The model promises neither. Its `parse` parameter does return a record with three strings,
  though, so the paths where `JSON.parse` yields something else are not covered (see "Left out").
- Chat input before any document is silently ignored by the screen (App.tsx:51). It is not
  reported as a session error. Only the service itself throws "Chat session not initialized".

## Model

| member | source | states |
|---|---|---|
| `JsText.IsWhitespace` | App.tsx:28 | the characters `trim` drops are the ECMAScript whitespace and line terminators; all lie in the Basic Multilingual Plane, and none is an ASCII letter or digit |
| `JsText.TrimStart` | App.tsx:28 | the result is the suffix of the input left after dropping leading whitespace: every dropped character is whitespace, and the result does not start with whitespace |
| `JsText.TrimEnd` | App.tsx:28 | the result is the prefix of the input left after dropping trailing whitespace: every dropped character is whitespace, and the result does not end with whitespace |
| `JsText.Trim` | App.tsx:28 | `trim()` returns the piece of its input left after dropping an all-whitespace prefix and an all-whitespace suffix, and that piece neither starts nor ends with whitespace |
| `JsText.TrimEmptyIffBlank` | App.tsx:28-31 | `!s.trim()` holds exactly when `IsBlank(s)`, that is, when every character of `s` is whitespace, in both directions; `IsBlank` is the guard both handlers test (App.tsx:28 and App.tsx:51) |
| `JsText.Contains` | App.tsx:62 | `includes` finds a needle at the start of the string, and never finds a needle longer than the string; its full characterisation is `JsText.ContainsIffOccurs` |
| `JsText.ContainsIffOccurs` | App.tsx:62 | `includes` finds the needle exactly when it occurs at some index of the string, in both directions |
| `LetterApp.IsFullLetter` | App.tsx:62 | a reply is classified as a full letter exactly when "To Whom It May Concern" occurs anywhere in it, including inside a quoted excerpt |
| `LetterApp.SalutationFirstIsFullLetter` | App.tsx:61-64 | a reply that opens with the salutation is taken as a full rewrite of the letter |
| `LetterApp.ShortenAnswerIsIncidental` | App.tsx:61-64 | the answer "Sure, here's a tighter version: ..." is not a full letter, so it leaves the letter alone |
| `LetterApp.AppendExchangeKeepsAlternating` | App.tsx:53-66 | appending one user turn and one model turn keeps the transcript alternating model/user, starting and ending with a model turn |
| `GeminiService.LetterSchemaMatchesContent` | services/geminiService.ts:7-23 | the response schema is an object with exactly three properties, all strings and all required, and their names are exactly the fields of `GeneratedContent` |
| `GeminiService.GenerateLetter` | services/geminiService.ts:53-72 | a rejected request rethrows its own error; an undefined or empty text throws "No response generated"; a non-empty text yields exactly what parsing it gives, so a parse error is rethrown too; a letter is returned only for non-empty text |
| `GeminiService.ReplyText` | services/geminiService.ts:97-98 | a settled send never yields the empty string: it yields the model's non-empty text, and anything other than the fallback apology is that text |
| `GeminiService.SystemInstructionFramesSeed` | services/geminiService.ts:81-87 | the session's system instruction is the fixed framing followed by the seed letter verbatim and nothing else, so it contains the seed |
| `GeminiService.SystemInstructionInjective` | services/geminiService.ts:77-90 | two sessions with the same instruction were seeded with the same letter, so a session identifies its seed |
| `GeminiService.ChatService.constructor` | services/geminiService.ts:75 | before any `initializeChat` there is no session, and none has been created |
| `GeminiService.ChatService.InitializeChat` | services/geminiService.ts:77-90 | the previous session, if any, is replaced by exactly one newly created session on gemini-2.5-flash seeded with the given context; the count of created sessions goes up by one even when the letter is the same |
| `GeminiService.ChatService.SendMessage` | services/geminiService.ts:92-99 | with no session it throws "Chat session not initialized" whatever the model would answer; with a session a rejection is rethrown and a reply is never empty |
| `LetterApp.App.constructor` | App.tsx:9-18 | the screen starts with empty inputs, no content, an empty transcript and status `Idle`, having made no call |
| `LetterApp.App.EditProfessorInfo` | App.tsx:119 | typing into the professor field changes that field only |
| `LetterApp.App.EditStudentMaterial` | App.tsx:128 | typing into the material field changes that field only |
| `LetterApp.App.EditChatInput` | App.tsx:211 | typing into the chat box changes the chat input only |
| `LetterApp.App.HandleGenerate` | App.tsx:27-47 | blank input after trimming changes nothing and makes no call. Otherwise the status is `Loading` before the request, with the untrimmed inputs. On success the content is the service's result, the session is replaced by one newly created session seeded with its English letter, the transcript is just the greeting, and the status is `Success`. On failure content, transcript and session are unchanged and the status is `Error`. The inputs are never touched, and `Valid()` is kept |
| `LetterApp.App.HandleChatSubmit` | App.tsx:49-68 | blank input or no content changes nothing and sends nothing. Otherwise the input is cleared, the old transcript is kept as a prefix and exactly a user turn and a model turn (the reply, or the apology on failure) are appended, and the English letter becomes the reply exactly when the send succeeded and the reply includes the salutation. The other two content fields and the status never change, and `Valid()` is kept |

## Left out

- Rendering (App.tsx:74-228, components/SectionBox.tsx) is not modelled. The auto-scroll effect (App.tsx:23-25), the `alert` on blank input (App.tsx:29), `console.error` and the clipboard copy (App.tsx:70-72) are left out too. They are presentation with no effect on the state.
- The disabled states of the generate button, the chat input and the send button (App.tsx:97, 207, 215) are left out. They are presentation, and the handlers repeat the guards that matter.
- The Gemini SDK calls (`ai.models.generateContent`, `ai.chats.create`, `chatSession.sendMessage`) are foreign I/O. The outcomes of `generateContent` and `sendMessage` are parameters; `ai.chats.create` is modelled as always succeeding (next line).
- `ai.chats.create` is taken never to throw. If it threw, the source would already have stored the new content at App.tsx:36, and it would end in `ERROR` without resetting the transcript. The model does not cover that path.
- `JSON.parse` is an abstract parser that always yields a record with three strings. The source casts its result without checking the fields, so the model does no field validation either.
- LetterApp.App.HandleGenerate: does not cover a `JSON.parse` result other than such a record. If the text parses to `null`, the source stores `null` as the content (App.tsx:36) and then throws at `result.englishLetter` (App.tsx:39): it ends in `ERROR` with the content cleared, while the old transcript and session stay. If `englishLetter` is missing, the session is seeded with the text "undefined". The contract's "on failure the content is unchanged" holds only for the paths the model covers.
- The generation prompt's wording, word counts, transition phrases, the schema's field descriptions and the temperature 0.7 (services/geminiService.ts:29-51, 61) are left out. Nothing in the code checks them.
- The conversation history that the SDK keeps inside a chat session is not modelled. The screen cannot observe it.
- Asynchronous interleaving of the handlers is not modelled. Each handler is one atomic step, so a late chat reply arriving after a newer generation is not modelled.
- `JsText.IsWhitespace` works on Unicode scalar values. JavaScript strings are UTF-16 code units. This differs only for characters outside the Basic Multilingual Plane, none of which is whitespace.
