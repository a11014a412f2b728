/**
 The turn controller: the page's session state, the two input fields and
 the steps that change them. Each asynchronous handler is split at its
 `await` into a step that issues the Narrator request and a step that
 records the reply, which arrives as a parameter.
 */
module Session {
  import opened Types
  import JsText
  import Narrator

  const CluePrompt := "I found this clue at the scene. What do you make of it?"
  const IntroPrompt := "Introduce the crime scene at Vanguard Estate and the three suspects present."

  /** The submit handler's guard: it goes on when there is non-whitespace text or an image. */
  function Accepts(inputText: string, selectedImage: Option<string>): (b: bool)
    ensures b <==> !JsText.IsBlank(inputText) || JsText.Truthy(selectedImage)
  {
    JsText.Trim(inputText) != "" || JsText.Truthy(selectedImage)
  }

  /**
   The detective's message for the current input: the text as typed when
   there is any (whitespace included), the canned clue phrase for an image
   sent without text, and the image whenever one is selected.
   */
  function PlayerMessage(inputText: string, selectedImage: Option<string>, now: int): (m: Message)
    ensures m.role == Player && m.timestamp == now
    ensures inputText != "" ==> m.content == inputText
    ensures inputText == "" && JsText.Truthy(selectedImage) ==> m.content == CluePrompt
    ensures Accepts(inputText, selectedImage) ==> m.content != ""
    ensures m.image.Some? <==> JsText.Truthy(selectedImage)
    ensures m.image.Some? ==> m.image == selectedImage
  {
    var content := if inputText != "" then inputText
                   else if JsText.Truthy(selectedImage) then CluePrompt
                   else "";
    Message(Player, content, if JsText.Truthy(selectedImage) then selectedImage else None, now)
  }

  /** The one-message log `startGame` sends to the Narrator. */
  function IntroRequest(now: int): (request: seq<Message>)
    ensures |request| == 1 && request[0].role == Player && request[0].content == IntroPrompt
    ensures request[0].image == None && request[0].timestamp == now
  {
    [Message(Player, IntroPrompt, None, now)]
  }

  class Game {
    var state: GameState
    var inputText: string
    var selectedImage: Option<string>

    /** A fresh page: empty log, not started, not waiting, empty inputs. */
    constructor (suspects: seq<Suspect>)
      ensures state == GameState([], suspects, [], false, false)
      ensures inputText == "" && selectedImage == None
    {
      state := GameState([], suspects, [], false, false);
      inputText := "";
      selectedImage := None;
    }

    /**
     The send button is enabled exactly when no reply is awaited and the
     input has non-whitespace text or an image; when it is, the handler's
     own guard lets the submission through.
     */
    function SubmitEnabled(): (b: bool)
      reads this
      ensures b <==> !state.isThinking && (!JsText.IsBlank(inputText) || JsText.Truthy(selectedImage))
      ensures b ==> Accepts(inputText, selectedImage)
    {
      !state.isThinking && Accepts(inputText, selectedImage)
    }

    /**
     The start screen, and with it its button, is shown exactly while the
     game has not started; nothing else disables the button, so it stays
     clickable while an introduction is awaited.
     */
    function StartEnabled(): (b: bool)
      reads this
      ensures b <==> !state.gameStarted
    {
      !state.gameStarted
    }

    /**
     First half of `startGame`: mark the wait and issue the introduction
     request. The start button stays as clickable as it was.
     */
    method Start(now: int) returns (request: seq<Message>)
      modifies this
      ensures state == old(state).(isThinking := true)
      ensures StartEnabled() == old(StartEnabled()) && state.isThinking
      ensures inputText == old(inputText) && selectedImage == old(selectedImage)
      ensures request == IntroRequest(now)
    {
      state := state.(isThinking := true);
      request := IntroRequest(now);
    }

    /** Second half of `startGame`: the log becomes the Dungeon Master's reply alone. */
    method ReceiveIntro(reply: string, now: int)
      modifies this
      ensures state == old(state).(messages := [Message(DM, reply, None, now)],
                                   isThinking := false, gameStarted := true)
      ensures inputText == old(inputText) && selectedImage == old(selectedImage)
    {
      state := state.(messages := [Message(DM, reply, None, now)], isThinking := false, gameStarted := true);
    }

    /**
     First half of `handleSendMessage`. When the guard refuses, nothing
     changes and no request is issued (None). Otherwise the player's message
     is appended, the wait is marked, both inputs are cleared and the new
     log is the request. The handler does not look at `isThinking`.
     */
    method Submit(now: int) returns (request: Option<seq<Message>>)
      modifies this
      ensures request.Some? <==> Accepts(old(inputText), old(selectedImage))
      ensures request.None? ==>
        state == old(state) && inputText == old(inputText) && selectedImage == old(selectedImage)
      ensures request.Some? ==>
        && request.value == old(state.messages) + [PlayerMessage(old(inputText), old(selectedImage), now)]
        && state == old(state).(messages := request.value, isThinking := true)
        && inputText == "" && selectedImage == None
    {
      if !Accepts(inputText, selectedImage) {
        return None;
      }
      var sent := state.messages + [PlayerMessage(inputText, selectedImage, now)];
      state := state.(messages := sent, isThinking := true);
      inputText := "";
      selectedImage := None;
      request := Some(sent);
    }

    /**
     Second half of `handleSendMessage`: the log becomes the submitted log
     `sent` followed by the Dungeon Master's reply, and the wait ends.
     */
    method ReceiveReply(sent: seq<Message>, reply: string, now: int)
      modifies this
      ensures state == old(state).(messages := sent + [Message(DM, reply, None, now)], isThinking := false)
      ensures inputText == old(inputText) && selectedImage == old(selectedImage)
    {
      state := state.(messages := sent + [Message(DM, reply, None, now)], isThinking := false);
    }

    /** Clicking a suspect's card pre-fills the input, and changes nothing else. */
    method Interrogate(name: string)
      modifies this`inputText
      ensures inputText == "Interrogate " + name + ": "
    {
      inputText := "Interrogate " + name + ": ";
    }
  }

  /**
   `startGame` from click to reply: the log is replaced by the single
   Dungeon Master message holding the Narrator's answer to the introduction
   prompt; neither the prompt nor the unused system intro is recorded.
   */
  method PlayStart(g: Game, narrator: seq<Narrator.Content> -> Narrator.Outcome, startedAt: int, repliedAt: int)
    modifies g
    ensures g.state == old(g.state).(messages := [Message(DM, Narrator.ReplyText(narrator(Narrator.Conversation(IntroRequest(startedAt)))), None, repliedAt)],
                                     isThinking := false, gameStarted := true)
    ensures g.state.messages[0].content != ""
    ensures g.inputText == old(g.inputText) && g.selectedImage == old(g.selectedImage)
  {
    var request := g.Start(startedAt);
    var reply := Narrator.GetDMResponse(request, None, narrator);
    g.ReceiveIntro(reply.value, repliedAt);
  }

  /**
   One `handleSendMessage` from click to reply. A refused submission changes
   nothing. An accepted one grows the log by exactly two, the player's
   message and then the Dungeon Master's non-empty answer to the whole
   submitted log, keeps the earlier log as a prefix and ends the wait.
   */
  method PlayTurn(g: Game, narrator: seq<Narrator.Content> -> Narrator.Outcome, sentAt: int, repliedAt: int)
    returns (accepted: bool)
    modifies g
    ensures accepted <==> Accepts(old(g.inputText), old(g.selectedImage))
    ensures !accepted ==>
      g.state == old(g.state) && g.inputText == old(g.inputText) && g.selectedImage == old(g.selectedImage)
    ensures accepted ==>
      var before := old(g.state.messages);
      var player := PlayerMessage(old(g.inputText), old(g.selectedImage), sentAt);
      var answer := Narrator.ReplyText(narrator(Narrator.Conversation(before + [player])));
      && g.state == old(g.state).(messages := before + [player, Message(DM, answer, None, repliedAt)], isThinking := false)
      && |g.state.messages| == |before| + 2
      && g.state.messages[..|before|] == before
      && answer != ""
      && g.inputText == "" && g.selectedImage == None
  {
    var image := g.selectedImage;
    var request := g.Submit(sentAt);
    accepted := request.Some?;
    if accepted {
      var reply := Narrator.GetDMResponse(request.value, image, narrator);
      g.ReceiveReply(request.value, reply.value, repliedAt);
      assert request.value + [Message(DM, reply.value, None, repliedAt)]
          == old(g.state.messages) + [PlayerMessage(old(g.inputText), old(g.selectedImage), sentAt),
                                      Message(DM, reply.value, None, repliedAt)];
    }
  }

  /**
   Two clicks on the start button before the first introduction arrives.
   Both requests are issued; the first reply starts the game and a turn
   completes; the second reply then lands and replaces the whole log by
   itself, wiping the turn.
   */
  method OverlappingStarts(g: Game, narrator: seq<Narrator.Content> -> Narrator.Outcome,
                           firstIntro: string, lateIntro: string, question: string)
    returns (accepted: bool)
    requires !g.state.gameStarted && g.selectedImage == None
    requires !JsText.IsBlank(question)
    modifies g
    ensures accepted
    ensures g.state.messages == [Message(DM, lateIntro, None, 5)]
    ensures g.state.gameStarted && !g.state.isThinking
  {
    var firstRequest := g.Start(0);
    assert g.StartEnabled() && g.state.isThinking;
    var secondRequest := g.Start(1);
    g.ReceiveIntro(firstIntro, 2);
    g.inputText := question;
    accepted := PlayTurn(g, narrator, 3, 4);
    assert |g.state.messages| == 3;
    g.ReceiveIntro(lateIntro, 5);
  }

  /**
   An example session: start, ask a question (such as "Where was Arthur at
   midnight?"), then show an image with no text. The
   log holds one, then three, then five messages, and the image-only message
   carries the clue phrase and the image.
   */
  method Scenario(suspects: seq<Suspect>, narrator: seq<Narrator.Content> -> Narrator.Outcome,
                  question: string, clue: string)
    requires !JsText.IsBlank(question) && clue != ""
  {
    var g := new Game(suspects);
    assert !g.SubmitEnabled();
    PlayStart(g, narrator, 0, 1);
    assert |g.state.messages| == 1 && g.state.gameStarted;

    g.inputText := question;
    assert !g.state.isThinking && Accepts(g.inputText, g.selectedImage);
    assert g.SubmitEnabled();
    var accepted := PlayTurn(g, narrator, 2, 3);
    assert accepted && |g.state.messages| == 3;

    g.selectedImage := Some(clue);
    accepted := PlayTurn(g, narrator, 4, 5);
    assert accepted && |g.state.messages| == 5;
    assert g.state.messages[3] == Message(Player, CluePrompt, Some(clue), 4);
  }
}
