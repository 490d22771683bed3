/** The inbound side of the `messages.upsert` listener: a raw Baileys message
    batch is reduced to the chat, sender, group flag and body text the bot reads. */
module Events {
  import opened Optional
  import opened JsText

  /** Suffix that WhatsApp gives group-chat identifiers. */
  const GroupSuffix: string := "@g.us"

  /** `extendedTextMessage` and `imageMessage` payloads, with the one property read from each. */
  datatype TextPayload = TextPayload(text: Option<string>)
  datatype ImagePayload = ImagePayload(caption: Option<string>)

  /** One property of a message content object. The content object is a list of
      these in property order; only the first one is ever consulted. A payload of
      `None` stands for a `null` value. */
  datatype ContentField =
    | Conversation(conversation: Option<string>)
    | ExtendedTextMessage(extended: Option<TextPayload>)
    | ImageMessage(image: Option<ImagePayload>)
    | OtherField(name: string)

  /** `msg.key`; an absent `fromMe` is `false`. */
  datatype MessageKey = MessageKey(remoteJid: Option<string>, fromMe: bool, participant: Option<string>)

  /** One element of the upsert's `messages` array. `message == None` stands for a
      missing or `null` content object, `Some([])` for an empty object `{}`. */
  datatype RawMessage = RawMessage(key: Option<MessageKey>, message: Option<seq<ContentField>>)

  /** What the handler has in hand after its first lines. */
  datatype Inbound = Inbound(chatId: string, sender: string, isGroup: bool, text: string)

  /** Why the handler threw a `TypeError` before dispatch (caught and logged, no reply):
      no `messages[0]`, no `key`, no `remoteJid`, or a `null` text or image payload. */
  datatype Fault = NoFirstMessage | NoKey | NoRemoteJid | NullPayload

  datatype Normalised = Skip | Crashed(fault: Fault) | Accepted(msg: Inbound)

  /** The text the message carries, chosen by the first property of its content
      object alone: a conversation, the text of an extended text message, or the
      caption of an image; anything else, and a missing or empty value, is `''`.
      Reading a property of a `null` payload fails. */
  function BodyText(content: seq<ContentField>): (text: Option<string>)
    ensures text.None? <==> |content| > 0 && (content[0] == ExtendedTextMessage(None) || content[0] == ImageMessage(None))
    ensures |content| == 0 ==> text == Some("")
    ensures |content| > 0 && content[0].OtherField? ==> text == Some("")
    ensures |content| > 0 && content[0].Conversation? ==> text == Some(content[0].conversation.GetOr(""))
    ensures |content| > 0 && content[0].ExtendedTextMessage? && content[0].extended.Some? ==>
      text == Some(content[0].extended.value.text.GetOr(""))
    ensures |content| > 0 && content[0].ImageMessage? && content[0].image.Some? ==>
      text == Some(content[0].image.value.caption.GetOr(""))
  {
    if |content| == 0 then Some("")
    else match content[0]
      case Conversation(c) => Some(OrElse(c, ""))
      case ExtendedTextMessage(None) => None
      case ExtendedTextMessage(Some(payload)) => Some(OrElse(payload.text, ""))
      case ImageMessage(None) => None
      case ImageMessage(Some(payload)) => Some(OrElse(payload.caption, ""))
      case OtherField(_) => Some("")
  }

  /** Later properties of the content object never influence the body text. */
  lemma BodyTextFirstFieldOnly(f: ContentField, rest1: seq<ContentField>, rest2: seq<ContentField>)
    ensures BodyText([f] + rest1) == BodyText([f] + rest2) == BodyText([f])
  {
  }

  /** Normalises `messages[0]` of an upsert batch. A missing content object or a
      message of the bot's own makes the handler return early; a missing first
      message, key or chat id, or a `null` payload under the first content
      property, makes it throw before any reply. */
  function Normalise(messages: seq<RawMessage>): (r: Normalised)
    ensures |messages| == 0 ==> r == Crashed(NoFirstMessage)
    ensures |messages| > 0 && messages[0].message.None? ==> r.Skip?
    ensures |messages| > 0 && messages[0].key.Some? && messages[0].key.value.fromMe ==> r.Skip?
    ensures |messages| > 0 && messages[0].message.Some? && !(messages[0].key.Some? && messages[0].key.value.fromMe) ==>
      !r.Skip?
    ensures |messages| > 0 && messages[0].message.Some? && messages[0].key.None? ==> r == Crashed(NoKey)
    ensures
      (&& |messages| > 0 && messages[0].message.Some? && messages[0].key.Some? && !messages[0].key.value.fromMe
       && messages[0].key.value.remoteJid.None?)
      ==> r == Crashed(NoRemoteJid)
    ensures
      (&& |messages| > 0 && messages[0].message.Some? && messages[0].key.Some? && !messages[0].key.value.fromMe
       && messages[0].key.value.remoteJid.Some? && BodyText(messages[0].message.value).None?)
      ==> r == Crashed(NullPayload)
    ensures r.Accepted? <==>
      && |messages| > 0
      && messages[0].message.Some?
      && messages[0].key.Some?
      && !messages[0].key.value.fromMe
      && messages[0].key.value.remoteJid.Some?
      && BodyText(messages[0].message.value).Some?
    ensures r.Accepted? ==>
      && |messages| > 0
      && messages[0].message.Some?
      && messages[0].key.Some?
      && !messages[0].key.value.fromMe
      && messages[0].key.value.remoteJid == Some(r.msg.chatId)
      && BodyText(messages[0].message.value) == Some(r.msg.text)
      && (r.msg.isGroup <==> exists p :: r.msg.chatId == p + GroupSuffix)
      && (messages[0].key.value.participant.Some? && messages[0].key.value.participant.value != "" ==>
            r.msg.sender == messages[0].key.value.participant.value)
      && (messages[0].key.value.participant.None? || messages[0].key.value.participant.value == "" ==>
            r.msg.sender == r.msg.chatId)
  {
    if |messages| == 0 then Crashed(NoFirstMessage)
    else
      var m := messages[0];
      if m.message.None? || (m.key.Some? && m.key.value.fromMe) then Skip
      else if m.key.None? then Crashed(NoKey)
      else if m.key.value.remoteJid.None? then Crashed(NoRemoteJid)
      else if BodyText(m.message.value).None? then Crashed(NullPayload)
      else
        var from := m.key.value.remoteJid.value;
        EndsWithIff(from, GroupSuffix);
        Accepted(Inbound(
          from,
          OrElse(m.key.value.participant, from),
          EndsWith(from, GroupSuffix),
          BodyText(m.message.value).value))
  }

  /** Only the first message of a batch is looked at. */
  lemma NormaliseFirstOnly(m: RawMessage, rest1: seq<RawMessage>, rest2: seq<RawMessage>)
    ensures Normalise([m] + rest1) == Normalise([m] + rest2) == Normalise([m])
  {
  }
}
