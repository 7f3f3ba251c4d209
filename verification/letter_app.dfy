/**
 * The drafting screen's state machine (App.tsx): the generate handler, which validates the two
 * inputs, asks the service for a letter and seeds a chat session with it, and the chat handler,
 * which relays one refinement turn and adopts a reply as the new English letter when it looks
 * like a full letter. Each handler runs as one atomic step; the Gemini calls inside them are the
 * `Upstream` parameters.
 */
module LetterApp {
  import opened Wrappers
  import opened Types
  import JsText
  import GeminiService

  /** The salutation whose presence marks a chat reply as a complete rewritten letter. */
  const Salutation := "To Whom It May Concern"

  /** The model turn that opens the transcript after every successful generation. */
  const Greeting := "I have generated the letter based on your inputs. How can I help you refine it?"

  /** The model turn recorded when sending a chat message throws. */
  const Apology := "Sorry, I encountered an error processing your request."

  /**
   * The reply classifier: a reply replaces the English letter exactly when it includes the
   * salutation, that is, when the salutation occurs somewhere in it, quoted or not.
   */
  predicate IsFullLetter(reply: string)
    ensures IsFullLetter(reply) <==> exists i: nat :: JsText.OccursAt(reply, Salutation, i)
  {
    JsText.ContainsIffOccurs(reply, Salutation);
    JsText.Contains(reply, Salutation)
  }

  /** A reply that opens with the salutation is taken as a full letter. */
  lemma SalutationFirstIsFullLetter(reply: string)
    requires Salutation <= reply
    ensures IsFullLetter(reply)
  {
    JsText.OccursImpliesContains(reply, Salutation, 0);
  }

  /** An answer that does not contain the salutation, such as an offer to shorten a paragraph, leaves the letter alone. */
  lemma ShortenAnswerIsIncidental()
    ensures !IsFullLetter("Sure, here's a tighter version: ...")
  {
    var reply := "Sure, here's a tighter version: ...";
    assert forall i :: 0 <= i < |reply| ==> reply[i] != 'T';
    JsText.MissingFirstCharMeansAbsent(reply, Salutation);
  }

  /** A transcript whose turns alternate model, user, model, ..., starting and ending with a model turn. */
  predicate Alternating(history: seq<ChatMessage>) {
    |history| % 2 == 1
    && forall i :: 0 <= i < |history| ==> history[i].role == (if i % 2 == 0 then Model else User)
  }

  /** Appending one user turn and then one model turn keeps a transcript alternating. */
  lemma AppendExchangeKeepsAlternating(history: seq<ChatMessage>, question: string, answer: string)
    requires Alternating(history)
    ensures Alternating(history + [ChatMessage(User, question), ChatMessage(Model, answer)])
  {
    var h := history + [ChatMessage(User, question), ChatMessage(Model, answer)];
    forall i | 0 <= i < |h|
      ensures h[i].role == (if i % 2 == 0 then Model else User)
    {
      if i < |history| {
        assert h[i] == history[i];
      } else if i == |history| {
        assert i % 2 == 1;
      } else {
        assert i % 2 == 0;
      }
    }
  }

  /** The observable effects of the handlers, in the order they happen. */
  datatype Effect =
    | StatusSet(status: GenerationStatus)      // a call of setStatus
    | LetterRequested(data: LetterData)        // a call of generateLetter
    | ChatInitialized(context: string)         // a call of initializeChat
    | MessageSent(message: string)             // a call of sendMessageToChat

  /** The state of the screen component, together with the service module whose session it drives. */
  class App {
    var professorInfo: string
    var studentMaterial: string
    var generatedContent: Option<GeneratedContent>
    var chatHistory: seq<ChatMessage>
    var chatInput: string
    var status: GenerationStatus
    const service: GeminiService.ChatService
    /** Every effect the handlers have had so far. */
    ghost var effects: seq<Effect>

    /**
     * Between handler runs: the status is never `Loading`; before the first successful generation
     * there is no content and no transcript; afterwards there is a chat session, and the transcript
     * is the greeting followed by user/model pairs.
     */
    ghost predicate Valid()
      reads this, service
    {
      status != Loading
      && (generatedContent.None? ==> chatHistory == [] && (status == Idle || status == Error))
      && (generatedContent.Some? ==>
            service.chatSession.Some?
            && (status == Success || status == Error)
            && Alternating(chatHistory)
            && chatHistory[0] == ChatMessage(Model, Greeting))
    }

    /** Mounting the component: empty inputs, no content, empty transcript, status `Idle`. */
    constructor (service: GeminiService.ChatService)
      ensures Valid()
      ensures this.service == service
      ensures professorInfo == "" && studentMaterial == "" && chatInput == ""
      ensures generatedContent == None && chatHistory == [] && status == Idle
      ensures effects == []
    {
      this.service := service;
      professorInfo, studentMaterial, chatInput := "", "", "";
      generatedContent := None;
      chatHistory := [];
      status := Idle;
      effects := [];
    }

    /** Typing into the professor information field. */
    method EditProfessorInfo(text: string)
      requires Valid()
      modifies this
      ensures Valid()
      ensures professorInfo == text
      ensures studentMaterial == old(studentMaterial) && chatInput == old(chatInput)
      ensures generatedContent == old(generatedContent) && chatHistory == old(chatHistory)
      ensures status == old(status) && effects == old(effects)
    {
      professorInfo := text;
    }

    /** Typing into the student material field. */
    method EditStudentMaterial(text: string)
      requires Valid()
      modifies this
      ensures Valid()
      ensures studentMaterial == text
      ensures professorInfo == old(professorInfo) && chatInput == old(chatInput)
      ensures generatedContent == old(generatedContent) && chatHistory == old(chatHistory)
      ensures status == old(status) && effects == old(effects)
    {
      studentMaterial := text;
    }

    /** Typing into the chat input. */
    method EditChatInput(text: string)
      requires Valid()
      modifies this
      ensures Valid()
      ensures chatInput == text
      ensures professorInfo == old(professorInfo) && studentMaterial == old(studentMaterial)
      ensures generatedContent == old(generatedContent) && chatHistory == old(chatHistory)
      ensures status == old(status) && effects == old(effects)
    {
      chatInput := text;
    }

    /**
     * `handleGenerate`, with `response` the outcome of the Gemini request and `parse` the
     * `JSON.parse` of its text. Blank input is rejected before anything happens. Otherwise the status
     * goes to `Loading` before the request; a letter becomes the content, seeds a new chat session
     * and resets the transcript to the greeting, and the status ends `Success`; a failure changes
     * nothing but the status, which ends `Error`.
     */
    method HandleGenerate(response: GeminiService.Upstream, parse: string -> Result<GeneratedContent, string>)
      requires Valid()
      modifies this, service
      ensures Valid()
      ensures professorInfo == old(professorInfo) && studentMaterial == old(studentMaterial)
      ensures chatInput == old(chatInput)
      ensures JsText.IsBlank(professorInfo) || JsText.IsBlank(studentMaterial) ==> unchanged(this) && unchanged(service)
      ensures !(JsText.IsBlank(professorInfo) || JsText.IsBlank(studentMaterial)) && GeminiService.GenerateLetter(response, parse).Ok? ==>
        var result := GeminiService.GenerateLetter(response, parse).value;
        && generatedContent == Some(result)
        && service.chatSession == Some(GeminiService.Chat(GeminiService.ModelName, GeminiService.SystemInstruction(result.englishLetter)))
        && service.sessionsCreated == old(service.sessionsCreated) + 1
        && chatHistory == [ChatMessage(Model, Greeting)]
        && status == Success
        && effects == old(effects) + [StatusSet(Loading), LetterRequested(LetterData(professorInfo, studentMaterial)),
                                      ChatInitialized(result.englishLetter), StatusSet(Success)]
      ensures !(JsText.IsBlank(professorInfo) || JsText.IsBlank(studentMaterial)) && GeminiService.GenerateLetter(response, parse).Err? ==>
        && generatedContent == old(generatedContent)
        && chatHistory == old(chatHistory)
        && unchanged(service)
        && status == Error
        && effects == old(effects) + [StatusSet(Loading), LetterRequested(LetterData(professorInfo, studentMaterial)),
                                      StatusSet(Error)]
    {
      if JsText.IsBlank(professorInfo) || JsText.IsBlank(studentMaterial) {
        return;
      }
      status := Loading;
      effects := effects + [StatusSet(Loading)];
      effects := effects + [LetterRequested(LetterData(professorInfo, studentMaterial))];
      var outcome := GeminiService.GenerateLetter(response, parse);
      match outcome
      case Ok(result) =>
        generatedContent := Some(result);
        service.InitializeChat(result.englishLetter);
        effects := effects + [ChatInitialized(result.englishLetter)];
        chatHistory := [ChatMessage(Model, Greeting)];
        assert Alternating(chatHistory);
        status := Success;
        effects := effects + [StatusSet(Success)];
      case Err(_) =>
        status := Error;
        effects := effects + [StatusSet(Error)];
    }

    /**
     * `handleChatSubmit`, with `response` the outcome of sending the message on the chat session.
     * Blank input, or no content yet, makes it a no-op. Otherwise the input is cleared, the user turn
     * and then exactly one model turn (the reply, or the apology when sending throws) are appended, and
     * the English letter becomes the reply exactly when the reply is a full letter; the other two
     * fields of the content never change.
     */
    method HandleChatSubmit(response: GeminiService.Upstream)
      requires Valid()
      modifies this
      ensures Valid()
      ensures professorInfo == old(professorInfo) && studentMaterial == old(studentMaterial)
      ensures status == old(status)
      ensures JsText.IsBlank(old(chatInput)) || old(generatedContent).None? ==> unchanged(this)
      ensures !JsText.IsBlank(old(chatInput)) && old(generatedContent).Some? ==>
        var reply := if response.Ok? then GeminiService.ReplyText(response.value) else Apology;
        && chatInput == ""
        && chatHistory == old(chatHistory) + [ChatMessage(User, old(chatInput)), ChatMessage(Model, reply)]
        && generatedContent.Some?
        && generatedContent.value.chineseLogicDraft == old(generatedContent).value.chineseLogicDraft
        && generatedContent.value.grammarAnalysis == old(generatedContent).value.grammarAnalysis
        && generatedContent.value.englishLetter
           == (if response.Ok? && IsFullLetter(reply) then reply else old(generatedContent).value.englishLetter)
        && effects == old(effects) + [MessageSent(old(chatInput))]
    {
      if JsText.IsBlank(chatInput) || generatedContent.None? {
        return;
      }
      ghost var before := chatHistory;
      var userMsg := chatInput;
      chatInput := "";
      chatHistory := chatHistory + [ChatMessage(User, userMsg)];
      effects := effects + [MessageSent(userMsg)];
      var sent := service.SendMessage(userMsg, response);
      match sent {
        case Ok(reply) =>
          chatHistory := chatHistory + [ChatMessage(Model, reply)];
          assert chatHistory == before + [ChatMessage(User, userMsg), ChatMessage(Model, reply)];
          AppendExchangeKeepsAlternating(before, userMsg, reply);
          if IsFullLetter(reply) {
            generatedContent := match generatedContent
              case Some(prev) => Some(prev.(englishLetter := reply))
              case None => None;
          }
        case Err(_) =>
          chatHistory := chatHistory + [ChatMessage(Model, Apology)];
          assert chatHistory == before + [ChatMessage(User, userMsg), ChatMessage(Model, Apology)];
          AppendExchangeKeepsAlternating(before, userMsg, Apology);
      }
    }
  }

  /**
   * A client of the handlers: a generation whose request fails opens no session, so a later chat
   * message is ignored by the screen and would be refused by the service.
   */
  method ScenarioFailedGeneration() {
    var service := new GeminiService.ChatService();
    var app := new App(service);
    app.EditProfessorInfo("Dr. Lin, CS Dept");
    app.EditStudentMaterial("Built a distributed cache");
    assert app.professorInfo[0] == 'D' && app.studentMaterial[0] == 'B';
    app.HandleGenerate(Err("upstream unavailable"), text => Err("not reached"));
    assert app.status == Error && app.generatedContent == None && service.chatSession == None;

    app.EditChatInput("Rewrite it entirely");
    app.HandleChatSubmit(Ok(Some("To Whom It May Concern, ...")));
    assert app.chatHistory == [] && app.generatedContent == None;
    var sent := service.SendMessage("Rewrite it entirely", Ok(Some("To Whom It May Concern, ...")));
    assert sent == Err(GeminiService.NotInitializedMessage);
  }

  /**
   * A client of the handlers: a successful generation stores the document, seeds a session and
   * leaves the transcript at the greeting alone.
   */
  method ScenarioGenerate() {
    var service := new GeminiService.ChatService();
    var app := new App(service);
    app.EditProfessorInfo("Dr. Lin, CS Dept");
    app.EditStudentMaterial("Built a distributed cache");
    assert app.professorInfo[0] == 'D' && app.studentMaterial[0] == 'B';
    var draft := GeneratedContent("logic", "first draft", "analysis");
    app.HandleGenerate(Ok(Some("{...}")), text => Ok(draft));
    assert app.status == Success && app.generatedContent == Some(draft);
    assert app.chatHistory == [ChatMessage(Model, Greeting)];
    assert service.chatSession.Some?;
  }

  /**
   * A client of the handlers: on a screen holding a document, a rewrite whose reply opens with the
   * salutation replaces the English letter and nothing else of the content.
   */
  method ScenarioRewrite(app: App, draft: GeneratedContent)
    requires app.Valid() && app.generatedContent == Some(draft)
    modifies app
  {
    var history := app.chatHistory;
    app.EditChatInput("Rewrite it entirely");
    assert !JsText.IsWhitespace(app.chatInput[0]);
    var reply := Salutation + ", second draft";
    assert reply[..|Salutation|] == Salutation;
    SalutationFirstIsFullLetter(reply);
    app.HandleChatSubmit(Ok(Some(reply)));
    assert app.generatedContent == Some(draft.(englishLetter := reply));
    assert app.chatHistory == history + [ChatMessage(User, "Rewrite it entirely"), ChatMessage(Model, reply)];
    assert app.chatInput == "";
  }
}
