/** The `messages.upsert` listener as one pure function: normalise `messages[0]`,
    parse its body, select a handler and produce the replies it sends, given the
    configuration and what the AI and YouTube providers answer. */
module Dispatch {
  import opened Optional
  import opened JsText
  import opened Events
  import opened Commands

  // ---------------------------------------------------------------- configuration

  const DefaultOwner: string := "owner-number-not-set"

  datatype Config = Config(openAiKey: string, owner: string)

  /** The configuration read from the environment: the AI service key and the
      owner's number, each taking its default when the variable is absent or empty. */
  function ConfigFromEnv(openAiApiKey: Option<string>, ownerNumber: Option<string>): (c: Config)
    ensures c.openAiKey == "" <==> openAiApiKey.None? || openAiApiKey.value == ""
    ensures c.openAiKey != "" ==> openAiApiKey == Some(c.openAiKey)
    ensures c.owner != ""
    ensures ownerNumber.Some? && ownerNumber.value != "" ==> c.owner == ownerNumber.value
    ensures ownerNumber.None? || ownerNumber.value == "" ==> c.owner == DefaultOwner
  {
    Config(OrElse(openAiApiKey, ""), OrElse(ownerNumber, DefaultOwner))
  }

  // ---------------------------------------------------------------- providers

  /** What the chat-completion call yields: the content of the first choice
      (absent when there is no choice, message or content), or the thrown error's message. */
  datatype AiOutcome = Completed(content: Option<string>) | AiFailed(message: string)

  /** The `videoDetails` fields the handler reads; `thumbnailUrl` is the URL of the last thumbnail. */
  datatype VideoDetails = VideoDetails(title: string, author: string, lengthSeconds: string, thumbnailUrl: string)

  datatype VideoOutcome = VideoFound(details: VideoDetails) | VideoFailed(message: string)

  /** The external collaborators, as functions of what they are asked:
      the completion for a prompt, `ytdl.validateURL` and `ytdl.getInfo`. */
  datatype Providers = Providers(
    complete: string -> AiOutcome,
    validateUrl: string -> bool,
    getInfo: string -> VideoOutcome)

  // ---------------------------------------------------------------- effects

  /** `sock.sendMessage(chatId, { text })` or `sock.sendMessage(chatId, { image: { url }, caption })`. */
  datatype Reply = Text(chatId: string, text: string) | Image(chatId: string, imageUrl: string, caption: string)

  /** A request made to a provider (URL validation is a local check and is not one). */
  datatype ProviderCall = CompletionCall(prompt: string) | VideoInfoCall(url: string)

  /** The replies sent, in order, and the provider requests made while handling one event. */
  datatype Outcome = Outcome(replies: seq<Reply>, calls: seq<ProviderCall>)

  const Silent: Outcome := Outcome([], [])

  predicate AllTo(replies: seq<Reply>, chatId: string) {
    forall j | 0 <= j < |replies| :: replies[j].chatId == chatId
  }

  // ---------------------------------------------------------------- reply texts

  const PongText: string := "Pong!"
  const HelpText: string := "Commands: ping, help, .menu, .ai <prompt>, .ytdl <url>, echo <text>"
  const MenuLines: seq<string> := [
    "*Menu WA Bot*",
    "\U{2022} ping",
    "\U{2022} help",
    "\U{2022} .menu",
    "\U{2022} .ai <prompt>  (AI Chat)",
    "\U{2022} .ytdl <YouTube URL>  (YouTube info)",
    "\U{2022} .sticker (send an image with caption .sticker)",
    "\U{2022} echo <text>"
  ]
  const NothingToEcho: string := "Nothing to echo."
  const OwnerPrefix: string := "Owner: "
  const AiUsage: string := "Kirim: .ai <pertanyaan>"
  const AiAck: string := "Sedang memproses AI..."
  const AiNoAnswer: string := "AI tidak memberikan jawaban."
  const AiErrorPrefix: string := "Error AI: "
  const MissingKeyMessage: string := "OPENAI_API_KEY not set"
  const YtdlUsage: string := "Kirim: .ytdl <YouTube URL> (bot akan kirim info & thumbnail)"
  const YtdlErrorPrefix: string := "Gagal ambil info YouTube: "
  const StickerText: string :=
    "Fitur sticker: Kirim gambar dengan caption .sticker \U{2014} butuh ffmpeg & webp tools. Lihat README."

  function MenuText(): string {
    Join(MenuLines, "\n")
  }

  /** The caption sent with the thumbnail of a YouTube video. */
  function VideoCaption(d: VideoDetails, url: string): string {
    "Title: " + d.title + "\nAuthor: " + d.author + "\nDuration: " + d.lengthSeconds + "s\nURL: " + url
  }

  // ---------------------------------------------------------------- handlers

  /** The `.ai` handler after its acknowledgement: the second reply and the provider
      request. An unset key fails before the client is built, so nothing is asked. */
  function AskAi(prompt: string, chatId: string, cfg: Config, prov: Providers): (r: (Reply, seq<ProviderCall>))
    ensures r.0.Text? && r.0.chatId == chatId
    ensures cfg.openAiKey == "" <==> r.1 == []
    ensures r.1 != [] ==> r.1 == [CompletionCall(prompt)]
  {
    if cfg.openAiKey == "" then (Text(chatId, AiErrorPrefix + MissingKeyMessage), [])
    else
      var answer := match prov.complete(prompt)
        case Completed(content) => OrElse(content, AiNoAnswer)
        case AiFailed(message) => AiErrorPrefix + message;
      (Text(chatId, answer), [CompletionCall(prompt)])
  }

  /** The `echo` handler: the argument words joined by single spaces, or a notice
      when there are none. It never sends an empty text. */
  function HandleEcho(args: seq<string>, chatId: string): (r: Outcome)
    ensures |r.replies| == 1 && r.calls == []
    ensures r.replies[0].Text? && r.replies[0].chatId == chatId && r.replies[0].text != ""
    ensures Join(args, " ") != "" ==> r.replies[0].text == Join(args, " ")
    ensures Join(args, " ") == "" ==> r.replies[0].text == NothingToEcho
  {
    var joined := Join(args, " ");
    Outcome([Text(chatId, if joined == "" then NothingToEcho else joined)], [])
  }

  /** The `.ai` handler: a usage hint when the prompt is empty; otherwise an
      acknowledgement first and then the answer or the error. */
  function HandleAi(args: seq<string>, chatId: string, cfg: Config, prov: Providers): (r: Outcome)
    ensures AllTo(r.replies, chatId)
    ensures |r.replies| == 2 <==> Join(args, " ") != ""
    ensures |r.replies| == 1 <==> Join(args, " ") == ""
    ensures |r.replies| == 2 ==> r.replies[0] == Text(chatId, AiAck)
    ensures r.calls != [] ==> cfg.openAiKey != "" && r.calls == [CompletionCall(Join(args, " "))]
  {
    var prompt := Join(args, " ");
    if prompt == "" then Outcome([Text(chatId, AiUsage)], [])
    else
      var (answer, calls) := AskAi(prompt, chatId, cfg, prov);
      Outcome([Text(chatId, AiAck), answer], calls)
  }

  /** The `.ytdl` handler: `parts[1]` is the URL; without one that passes validation
      it answers with a usage hint, otherwise it asks for the video's details once. */
  function HandleYtdl(args: seq<string>, chatId: string, prov: Providers): (r: Outcome)
    ensures |r.replies| == 1 && r.replies[0].chatId == chatId
    ensures r.calls != [] <==> |args| > 0 && args[0] != "" && prov.validateUrl(args[0])
    ensures r.calls != [] ==> r.calls == [VideoInfoCall(args[0])]
  {
    if |args| == 0 || args[0] == "" || !prov.validateUrl(args[0]) then
      Outcome([Text(chatId, YtdlUsage)], [])
    else
      var url := args[0];
      var reply := match prov.getInfo(url)
        case VideoFound(d) => Image(chatId, d.thumbnailUrl, VideoCaption(d, url))
        case VideoFailed(message) => Text(chatId, YtdlErrorPrefix + message);
      Outcome([reply], [VideoInfoCall(url)])
  }

  /** One handler of the chain, run on the words after the command key. Every reply
      goes to the originating chat; only `.ai` with a prompt sends two. */
  function Handle(c: Command, args: seq<string>, chatId: string, cfg: Config, prov: Providers): (r: Outcome)
    ensures AllTo(r.replies, chatId)
    ensures 1 <= |r.replies| <= 2
    ensures |r.replies| == 2 <==> c == Ai && Join(args, " ") != ""
    ensures |r.calls| <= 1
    ensures r.calls != [] ==> (c == Ai && |r.replies| == 2) || (c == Ytdl && |args| > 0)
  {
    match c
    case Ping => Outcome([Text(chatId, PongText)], [])
    case Help => Outcome([Text(chatId, HelpText)], [])
    case Menu => Outcome([Text(chatId, MenuText())], [])
    case Echo => HandleEcho(args, chatId)
    case Owner => Outcome([Text(chatId, OwnerPrefix + cfg.owner)], [])
    case Ai => HandleAi(args, chatId, cfg, prov)
    case Ytdl => HandleYtdl(args, chatId, prov)
    case Sticker => Outcome([Text(chatId, StickerText)], [])
  }

  /** Parse the body of an accepted message and run the handler its key selects.
      It is silent exactly when the body is blank or its key selects no handler. */
  function Route(msg: Inbound, cfg: Config, prov: Providers): (r: Outcome)
    ensures AllTo(r.replies, msg.chatId)
    ensures |r.replies| <= 2 && |r.calls| <= 1
    ensures AllSpace(msg.text) ==> r == Silent
    ensures r.replies == [] <==> AllSpace(msg.text) || Lookup(Parse(msg.text).value.key).None?
    ensures r.replies == [] ==> r.calls == []
  {
    match Parse(msg.text)
    case None => Silent
    case Some(p) =>
      match Lookup(p.key)
      case None => Silent
      case Some(c) => Handle(c, p.args, msg.chatId, cfg, prov)
  }

  /** The whole `messages.upsert` listener. Events it skips or that make it throw
      produce nothing; otherwise every reply goes to the chat the message came from. */
  function OnUpsert(messages: seq<RawMessage>, cfg: Config, prov: Providers): (r: Outcome)
    ensures !Normalise(messages).Accepted? ==> r == Silent
    ensures |messages| > 0 && (messages[0].message.None? || (messages[0].key.Some? && messages[0].key.value.fromMe))
      ==> r == Silent
    ensures r.replies != [] ==>
      |messages| > 0 && messages[0].key.Some? && messages[0].key.value.remoteJid.Some? &&
      AllTo(r.replies, messages[0].key.value.remoteJid.value)
    ensures |r.replies| <= 2 && |r.calls| <= 1
    ensures Normalise(messages).Accepted? ==> r == Route(Normalise(messages).msg, cfg, prov)
  {
    match Normalise(messages)
    case Skip => Silent
    case Crashed(_) => Silent
    case Accepted(msg) => Route(msg, cfg, prov)
  }
}
