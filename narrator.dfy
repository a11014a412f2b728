/**
 The Narrator client: how the chat log is shaped into the generative-model
 request (one role-tagged entry per message, with the player's image as a
 second, inline part) and how whatever comes back, or fails to, becomes the
 string the game shows. The remote call itself is a parameter: a function
 from the request to an Outcome.
 */
module Narrator {
  import opened Types
  import JsText

  const UserRole := "user"
  const ModelRole := "model"
  const ImageMimeType := "image/jpeg"
  const SilentFallback := "The shadows remain silent..."
  const ConnectionErrorFallback := "A sudden static fills your mind... (Connection Error)"

  /** One part of a request entry; `data` is None where the code sends `undefined`. */
  datatype Part = Text(text: string) | InlineData(mimeType: string, data: Option<string>)

  /** One entry of the request's `contents`. */
  datatype Content = Content(role: string, parts: seq<Part>)

  /** What the remote call did: answered (with `text` possibly absent or empty) or threw. */
  datatype Outcome = Replied(text: Option<string>) | Failed

  /** Reading the last message of an empty log throws before the call is attempted. */
  datatype Error = EmptyLog

  /** `uri.split(',')[1]`: the base64 payload of a data URI. */
  function ImagePayload(uri: string): (data: Option<string>)
    ensures data.Some? <==> ',' in uri
  {
    JsText.At(JsText.Split(uri, ','), 1)
  }

  /** A data URI `header,payload` whose halves hold no comma gives back exactly `payload`. */
  lemma ImagePayloadRoundTrip(header: string, payload: string)
    requires ',' !in header && ',' !in payload
    ensures ImagePayload(header + "," + payload) == Some(payload)
  {
    var fields := [header, payload];
    assert JsText.Join(fields[1..], ',') == payload;
    assert JsText.Join(fields, ',') == header + "," + payload;
    JsText.SplitJoin(fields, ',');
  }

  /** The request entry for one message. */
  function ToContent(m: Message): (c: Content)
    ensures c.role == UserRole <==> m.role == Player
    ensures c.role == UserRole || c.role == ModelRole
    ensures 1 <= |c.parts| <= 2 && c.parts[0] == Text(m.content)
    ensures |c.parts| == 2 <==> m.role == Player && JsText.Truthy(m.image)
    ensures |c.parts| == 2 ==> c.parts[1] == InlineData(ImageMimeType, ImagePayload(m.image.value))
  {
    var role := if m.role == Player then UserRole else ModelRole;
    var textPart := Text(m.content);
    if JsText.Truthy(m.image) && m.role == Player then
      Content(role, [textPart, InlineData(ImageMimeType, ImagePayload(m.image.value))])
    else
      Content(role, [textPart])
  }

  /** The request's `contents`: the log mapped entry by entry, in order. */
  function Conversation(messages: seq<Message>): (conv: seq<Content>)
    ensures |conv| == |messages|
    ensures forall i :: 0 <= i < |messages| ==> conv[i] == ToContent(messages[i])
  {
    if messages == [] then [] else [ToContent(messages[0])] + Conversation(messages[1..])
  }

  /** Appending to the log appends to the request: a longer log re-sends the earlier entries unchanged. */
  lemma {:induction false} ConversationAppend(earlier: seq<Message>, later: seq<Message>)
    ensures Conversation(earlier + later) == Conversation(earlier) + Conversation(later)
  {
    if earlier != [] {
      assert (earlier + later)[1..] == earlier[1..] + later;
      ConversationAppend(earlier[1..], later);
    }
  }

  /** Only a player's image is sent; an image on a Dungeon Master or system message is dropped. */
  lemma NonPlayerImageDropped(m: Message)
    requires m.role != Player
    ensures Conversation([m]) == [Content(ModelRole, [Text(m.content)])]
  {
  }

  /** The string shown for an outcome: the reply when it is non-empty, else a fixed fallback. */
  function ReplyText(outcome: Outcome): (text: string)
    ensures text != ""
    ensures outcome.Replied? && JsText.Truthy(outcome.text) ==> text == outcome.text.value
    ensures outcome.Replied? && !JsText.Truthy(outcome.text) ==> text == SilentFallback
    ensures outcome.Failed? ==> text == ConnectionErrorFallback
  {
    match outcome
    case Replied(t) => if JsText.Truthy(t) then t.value else SilentFallback
    case Failed => ConnectionErrorFallback
  }

  /**
   `getDMResponse(messages, currentImage)`: throws on an empty log, otherwise
   sends the conversation and never fails. `currentImage` has no effect.
   */
  function GetDMResponse(messages: seq<Message>, currentImage: Option<string>,
                         narrator: seq<Content> -> Outcome): (r: Result<string, Error>)
    ensures r.Err? <==> messages == []
    ensures r.Ok? ==> r.value != ""
    ensures r.Ok? ==> r.value == ReplyText(narrator(Conversation(messages)))
  {
    if messages == [] then Err(EmptyLog)
    else Ok(ReplyText(narrator(Conversation(messages))))
  }
}
