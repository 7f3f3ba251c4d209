/** Failure-compatible wrappers used for the values JavaScript leaves undefined or throws. */
module Wrappers {
  /** A value that may be absent (`null` or `undefined` in the source). */
  datatype Option<+T> = None | Some(value: T)

  /** The outcome of an operation that may throw: its value, or the error message it throws. */
  datatype Result<+T, +E> = Ok(value: T) | Err(error: E)
}

/** The records and the enumeration shared by the drafting screen and the Gemini service (types.ts). */
module Types {
  /** The two raw inputs of a generation request, exactly as typed by the user. */
  datatype LetterData = LetterData(professorInfo: string, studentMaterial: string)

  /** The structured document a generation returns: three strings, of which refinement edits only `englishLetter`. */
  datatype GeneratedContent = GeneratedContent(chineseLogicDraft: string, englishLetter: string, grammarAnalysis: string)

  /** Who wrote a chat turn: the user, or the model (the assistant). */
  datatype Role = User | Model

  /** One entry of the refinement transcript. */
  datatype ChatMessage = ChatMessage(role: Role, text: string)

  /** The four states of the generate button; `Idle` is the initial one. */
  datatype GenerationStatus = Idle | Loading | Success | Error
}
