# Midnight Manor: turn controller and Narrator request, in Dafny

Midnight Manor is a browser murder-mystery. The detective chats with a hosted
language model that plays the Dungeon Master (DM). This project models the
small part of the program that has behaviour to state:

- **Session** (`session.dfy`, from `App.tsx`). This is the page's session state:
  a `GameState` with the message log, the suspects, the evidence and the
  `isThinking`/`gameStarted` flags, plus the two input fields `inputText` and
  `selectedImage`. Together they form the class `Session.Game`. Each
  asynchronous handler is split at its `await`:
  - `startGame` becomes `Start`, which marks the wait and issues the
    introduction request, then `ReceiveIntro(reply)`.
  - `handleSendMessage` becomes `Submit`, which applies the guard, appends the
    player's message and clears the inputs, then `ReceiveReply(sent, reply)`.
    Here `sent` is the log that the handler's closure captured.
  - `Interrogate` pre-fills the input.
  - `SubmitEnabled` is the send button's enabled condition.
  - `PlayStart` and `PlayTurn` run both halves of a handler with the Narrator
    in between, and state what a whole turn does to the log.
  - `Scenario` is an example: one pass through start, a question and an
    image-only clue.
  - `OverlappingStarts` is an example: two clicks on the start button.
- **Narrator** (`narrator.dfy`, from `services/geminiService.ts`). It builds the
  request's `contents`: one role-tagged entry per message, and the player's
  image as an inline `image/jpeg` part. Its data is the data URI's field after
  the first comma, up to the next comma if there is one. It also maps the remote call's outcome to the
  string the game shows. The remote call is a function parameter from the
  request to an `Outcome`: a reply whose text may be absent or empty, or a
  failure.
- **JsText** (`js_text.dfy`). The JavaScript string semantics the code relies
  on:
  - `trim`, which removes ECMAScript WhiteSpace and LineTerminator code points;
  - `split` with a one-character separator, with its join round trips;
  - reading an array index that may be past the end;
  - the truthiness of an optional string.
- **Types** (`types.dfy`, from `types.ts`). `Role`, `Message`, `Suspect`,
  `Evidence`, `GameState`, and the `Option`/`Result` wrappers. JavaScript's
  `undefined` and `null` are both `None`.

Behaviour worth knowing:

- After start and one turn the log holds three messages: the DM's
  introduction, the player's message and the DM's reply. The seed prompt sent
  by `startGame` is never recorded, and the system intro message it builds is
  never used (`App.tsx:52-75`).
- The submit guard trims the text, but the recorded message keeps the text
  untrimmed. Text made only of whitespace, sent with an image, is recorded as
  that whitespace, not as the clue phrase (`App.tsx:83`, `App.tsx:87`).
- Only submission is guarded against overlapping requests, and only by the
  disabled send button (`SubmitEnabled`, `App.tsx:255`). The send handler
  itself (`Submit`) does not look at `isThinking`.
- Starting is not guarded at all. The start screen is shown while
  `gameStarted` is false (`App.tsx:131`), and its button has no `disabled`
  condition (`App.tsx:138-139`). So it stays clickable while an introduction
  is awaited (`StartEnabled`), and a second click issues a second request.
  Whichever introduction reply lands last replaces the log (`App.tsx:75`).
  That includes a turn completed after the first reply, as
  `OverlappingStarts` shows.
- `getDMResponse` does not absorb every failure. On an empty log it reads the
  last message outside its `try` and throws (`services/geminiService.ts:32`).
  `GetDMResponse` returns `Err(EmptyLog)` there. Both of the page's callers
  pass a non-empty log, so `PlayStart` and `PlayTurn` never reach that case.
- An empty reply is shown as "The shadows remain silent...". A failed call is
  shown as "A sudden static fills your mind... (Connection Error)"
  (`services/geminiService.ts:77-80`).

## Model

| member | source | states |
|---|---|---|
| `JsText.Trim` | App.tsx:83 | `s.trim()` is empty exactly when every character of `s` is JavaScript whitespace; otherwise it starts and ends with a non-whitespace character |
| `JsText.LeadingWhitespace` | App.tsx:83 | the whitespace prefix that `trim` removes holds only whitespace and stops at the first non-whitespace character |
| `JsText.TrailingWhitespace` | App.tsx:83 | the whitespace suffix that `trim` removes holds only whitespace and stops at the last non-whitespace character |
| `JsText.IndexOf` | services/geminiService.ts:56 | the first occurrence of the separator: it is absent exactly when the separator does not occur, and it is never preceded by another occurrence |
| `JsText.Split` | services/geminiService.ts:56 | `split(',')` yields at least one piece, no piece contains the separator, and there is a single piece exactly when the separator is absent |
| `JsText.At` | services/geminiService.ts:56 | indexing `[1]` yields `undefined` exactly when the array has fewer than two elements, and the element otherwise |
| `JsText.JoinSplit` | services/geminiService.ts:56 | splitting loses no character: joining the pieces with the separator gives back the original string |
| `JsText.SplitJoin` | services/geminiService.ts:56 | pieces free of the separator are recovered exactly, in order, by splitting their join |
| `Narrator.ImagePayload` | services/geminiService.ts:56 | the data sent for an image is `undefined` exactly when the data URI has no comma |
| `Narrator.ImagePayloadRoundTrip` | services/geminiService.ts:56 | for a data URI `header,payload` in which neither half contains a comma, the data sent is exactly `payload` |
| `Narrator.ToContent` | services/geminiService.ts:44-62 | an entry's role is "user" if and only if the message is the player's, and "model" otherwise; its first part is the message text; it has a second part if and only if the message is the player's and carries a non-empty image; that part is `image/jpeg` with the URI's payload |
| `Narrator.Conversation` | services/geminiService.ts:43-63 | exactly one entry per message, in the same order, each the entry for that message |
| `Narrator.ConversationAppend` | services/geminiService.ts:43-63 | the request for a longer log is the request for the earlier log followed by the entries for the new messages |
| `Narrator.NonPlayerImageDropped` | services/geminiService.ts:48-62 | a DM or system message that carries an image still yields a single text part under the "model" role |
| `Narrator.ReplyText` | services/geminiService.ts:77-80 | the shown string is never empty: it is the reply text when that is non-empty, "The shadows remain silent..." when the text is empty or absent, and the connection-error string when the call failed |
| `Narrator.GetDMResponse` | services/geminiService.ts:25-81 | it throws exactly when the log is empty; otherwise it returns a non-empty string, the shown string for the outcome of sending the log's conversation; `currentImage` has no influence |
| `Session.Accepts` | App.tsx:83 | the send handler goes on exactly when the text has a non-whitespace character or a non-empty image is selected |
| `Session.PlayerMessage` | App.tsx:85-90 | a player message stamped `now`; its content is the text whenever the text is non-empty (whitespace included), or the clue phrase when the text is empty and an image is selected; an accepted input never yields empty content; it carries the selected image exactly when one is selected |
| `Session.IntroRequest` | App.tsx:59-65 | `startGame` sends one player message holding the introduction prompt and no image |
| `Session.Game.constructor` | App.tsx:32-40 | a fresh page: empty log, no evidence, not waiting, not started, empty text and no image |
| `Session.Game.SubmitEnabled` | App.tsx:255 | the button is enabled exactly when no reply is awaited and the text has a non-whitespace character or an image is selected; when it is enabled, the handler's guard accepts |
| `Session.Game.StartEnabled` | App.tsx:131-139 | the start button is shown, and clickable, exactly while the game has not started |
| `Session.Game.Start` | App.tsx:50-65 | only `isThinking` becomes true, and the start button stays as clickable as it was; the request is the introduction prompt |
| `Session.Game.ReceiveIntro` | App.tsx:67-78 | the log is replaced by a single DM message holding the reply; `isThinking` becomes false and `gameStarted` true; suspects, evidence and inputs are unchanged |
| `Session.Game.Submit` | App.tsx:81-101 | a refused submission changes nothing and issues no request; an accepted one appends exactly one player message to the old log, sets `isThinking`, clears both inputs and sends the new log |
| `Session.Game.ReceiveReply` | App.tsx:103-113 | the log becomes the submitted log plus one DM message with the reply; `isThinking` becomes false; nothing else changes |
| `Session.Game.Interrogate` | App.tsx:127-129 | `inputText` becomes `"Interrogate " + name + ": "`; no other field changes |
| `Session.PlayStart` | App.tsx:50-79 | after a whole `startGame`, the log is exactly one DM message with the non-empty Narrator answer to the introduction prompt; `gameStarted` is true and `isThinking` false |
| `Session.OverlappingStarts` | App.tsx:50-79 | two start clicks before the first reply both go through; a turn after the first reply is accepted; the later introduction reply then leaves the log as that reply alone |
| `Session.PlayTurn` | App.tsx:81-114 | a refused turn changes nothing; an accepted turn grows the log by exactly two messages, the player's and then the DM's non-empty answer to the whole submitted log; the earlier log stays an unchanged prefix; `isThinking` ends false and the inputs are cleared |

## Left out

- Rendering, the JSX layout, the scroll effect and `components/SuspectCard.tsx`: presentation only. `SuspectCard`'s click reaches the model as `Game.Interrogate`.
- Image loading with `FileReader` (`App.tsx:116-125`): browser I/O. The data URI reaches the model by assigning `selectedImage`.
- The generative-model client, the API key, the model name, `SYSTEM_INSTRUCTION` and the generation parameters (`services/geminiService.ts:1-23`, `:66-75`): a foreign library call. It is the `narrator` function parameter, and the model does not say what it receives besides `contents`.
- The unused `contents` and `parts` arrays in `getDMResponse` (`services/geminiService.ts:26-40`): they are never sent. Only the empty-log exception that line 32 raises is modelled.
- `console.error` on a failed call: logging only.
- `Date.now()`: a clock read. Timestamps are `now` parameters and nothing inspects them.
- `INITIAL_SUSPECTS`: static data. The constructor takes the roster as a parameter.
- Interleaving between the two halves of a handler, beyond what the split shows. There is no coordination in the program: the send button is disabled while waiting, and the start button is not. `ReceiveReply` takes the captured log as a parameter, so a reply overwrites any change made to the log in between, as the code does.
- A guard against a second `startGame`: the program has none, so the model adds none. `Game.Start` has no precondition, and `OverlappingStarts` shows the resulting loss of the log.
- UTF-16 code units: strings are sequences of Unicode code points here, so a lone surrogate, which `trim` would keep, cannot occur.
