/** What each command of the message handler sends, first for the handler on its
    argument words and then for the whole route from the message text. */
module Replies {
  import opened Optional
  import opened JsText
  import opened Events
  import opened Commands
  import opened Dispatch

  // ---------------------------------------------------------------- from text to handler

  /** The body of `msg` is not blank and its lower-cased first word is a key of `c`. */
  predicate Invokes(msg: Inbound, c: Command) {
    Parse(msg.text).Some? && Parse(msg.text).value.key in KeysOf(c)
  }

  /** The words after the first word of `msg`'s body. */
  function ArgsOf(msg: Inbound): seq<string>
    requires Parse(msg.text).Some?
  {
    Parse(msg.text).value.args
  }

  /** A message whose first word is a key of `c` runs the handler of `c` on the
      words after it, and nothing else. */
  lemma RouteRuns(msg: Inbound, cfg: Config, prov: Providers, c: Command)
    requires Invokes(msg, c)
    ensures Route(msg, cfg, prov) == Handle(c, ArgsOf(msg), msg.chatId, cfg, prov)
  {
    LookupFindsEveryKey(c, Parse(msg.text).value.key);
  }

  /** A message that is its words joined by single spaces runs the handler its
      first word selects, in any case, on the remaining words. */
  lemma RouteOfWords(msg: Inbound, ws: seq<string>, c: Command, cfg: Config, prov: Providers)
    requires |ws| >= 1 && Words(ws) && msg.text == Join(ws, " ")
    requires Lower(ws[0]) in KeysOf(c)
    ensures Route(msg, cfg, prov) == Handle(c, ws[1..], msg.chatId, cfg, prov)
  {
    ParseOfWords(ws);
    RouteRuns(msg, cfg, prov, c);
  }

  /** What is sent depends only on the chat and on the words of the body: not on
      how they are spaced, nor on the sender. */
  lemma RouteDependsOnWords(m1: Inbound, m2: Inbound, cfg: Config, prov: Providers)
    requires m1.chatId == m2.chatId && Parse(m1.text) == Parse(m2.text)
    ensures Route(m1, cfg, prov) == Route(m2, cfg, prov)
  {
  }

  /** The whole listener looks at `messages[0]` only. */
  lemma OnlyFirstMessage(m: RawMessage, rest1: seq<RawMessage>, rest2: seq<RawMessage>, cfg: Config, prov: Providers)
    ensures OnUpsert([m] + rest1, cfg, prov) == OnUpsert([m] + rest2, cfg, prov) == OnUpsert([m], cfg, prov)
  {
    NormaliseFirstOnly(m, rest1, rest2);
  }

  /** A text message from another user, with a chat id, reaches the route with
      that chat id and text; so what it gets is what the route sends. */
  lemma ConversationRoutes(messages: seq<RawMessage>, chatId: string, text: string, cfg: Config, prov: Providers)
    requires |messages| > 0 && messages[0].key.Some?
    requires messages[0].key.value.remoteJid == Some(chatId) && !messages[0].key.value.fromMe
    requires messages[0].message.Some? && |messages[0].message.value| > 0
    requires messages[0].message.value[0] == Conversation(Some(text))
    ensures Normalise(messages).Accepted?
    ensures Normalise(messages).msg.chatId == chatId && Normalise(messages).msg.text == text
    ensures OnUpsert(messages, cfg, prov) == Route(Normalise(messages).msg, cfg, prov)
  {
    assert BodyText(messages[0].message.value) == Some(OrElse(Some(text), ""));
  }

  /** A `ping` in any case, from another user, is answered with `Pong!` in its chat. */
  lemma PingAnswered(messages: seq<RawMessage>, chatId: string, text: string, cfg: Config, prov: Providers)
    requires |messages| > 0 && messages[0].key.Some?
    requires messages[0].key.value.remoteJid == Some(chatId) && !messages[0].key.value.fromMe
    requires messages[0].message.Some? && |messages[0].message.value| > 0
    requires messages[0].message.value[0] == Conversation(Some(text))
    requires Parse(text).Some? && Parse(text).value.key in KeysOf(Ping)
    ensures OnUpsert(messages, cfg, prov) == Outcome([Text(chatId, PongText)], [])
  {
    ConversationRoutes(messages, chatId, text, cfg, prov);
    RouteRuns(Normalise(messages).msg, cfg, prov, Ping);
  }

  // ---------------------------------------------------------------- fixed replies

  /** `ping`, `help`, `.menu`, `owner` and `.sticker` answer once with a text that
      depends on neither the words after the key nor the providers, and ask nothing. */
  lemma FixedReplies(c: Command, a1: seq<string>, a2: seq<string>, chatId: string, cfg: Config, p1: Providers, p2: Providers)
    requires c !in {Echo, Ai, Ytdl}
    ensures Handle(c, a1, chatId, cfg, p1) == Handle(c, a2, chatId, cfg, p2)
    ensures Handle(c, a1, chatId, cfg, p1).calls == []
    ensures c == Ping ==> Handle(c, a1, chatId, cfg, p1).replies == [Text(chatId, PongText)]
    ensures c == Help ==> Handle(c, a1, chatId, cfg, p1).replies == [Text(chatId, HelpText)]
    ensures c == Menu ==> Handle(c, a1, chatId, cfg, p1).replies == [Text(chatId, MenuText())]
    ensures c == Owner ==> Handle(c, a1, chatId, cfg, p1).replies == [Text(chatId, OwnerPrefix + cfg.owner)]
    ensures c == Sticker ==> Handle(c, a1, chatId, cfg, p1).replies == [Text(chatId, StickerText)]
  {
  }

  // ---------------------------------------------------------------- echo

  /** `echo` with no words says there is nothing to echo; otherwise it sends the
      words joined by single spaces, a text that splits back into exactly those words. */
  lemma EchoReply(args: seq<string>, chatId: string, cfg: Config, prov: Providers)
    requires Words(args)
    ensures args == [] ==> Handle(Echo, args, chatId, cfg, prov) == Outcome([Text(chatId, NothingToEcho)], [])
    ensures args != [] ==>
      && Handle(Echo, args, chatId, cfg, prov) == Outcome([Text(chatId, Join(args, " "))], [])
      && Split(Join(args, " ")) == args
  {
    JoinWordsEmpty(args);
    if args != [] {
      SplitJoinRoundTrip(args);
    }
  }

  /** `echo` followed by words repeats the rest of the message with every
      whitespace run collapsed to a single space. */
  lemma EchoRepeatsRest(msg: Inbound, cfg: Config, prov: Providers)
    requires Invokes(msg, Echo) && ArgsOf(msg) != []
    ensures exists t ::
      && Route(msg, cfg, prov) == Outcome([Text(msg.chatId, t)], [])
      && Parse(msg.text).value.head + " " + t == Collapse(Trim(msg.text))
  {
    RouteRuns(msg, cfg, prov, Echo);
    RestOfBody(msg.text);
    JoinWordsEmpty(ArgsOf(msg));
    assert Route(msg, cfg, prov) == Outcome([Text(msg.chatId, Join(ArgsOf(msg), " "))], []);
  }

  // ---------------------------------------------------------------- .ai

  /** `.ai` answers with only the usage hint exactly when no words follow the key. */
  lemma AiUsageHint(args: seq<string>, chatId: string, cfg: Config, prov: Providers)
    requires Words(args)
    ensures Handle(Ai, args, chatId, cfg, prov) == Outcome([Text(chatId, AiUsage)], []) <==> args == []
  {
    JoinWordsEmpty(args);
  }

  /** With a prompt but no API key, `.ai` acknowledges and then reports the
      missing key as an AI error, without asking the provider. */
  lemma AiWithoutKey(args: seq<string>, chatId: string, cfg: Config, prov: Providers)
    requires Words(args) && args != [] && cfg.openAiKey == ""
    ensures Handle(Ai, args, chatId, cfg, prov) ==
      Outcome([Text(chatId, AiAck), Text(chatId, AiErrorPrefix + MissingKeyMessage)], [])
  {
    JoinWordsEmpty(args);
  }

  /** With a prompt and a key, `.ai` acknowledges, asks the provider once with the
      words joined by spaces, and sends the answer's content. */
  lemma AiAnswered(args: seq<string>, chatId: string, cfg: Config, prov: Providers, t: string)
    requires Words(args) && args != [] && cfg.openAiKey != ""
    requires prov.complete(Join(args, " ")) == Completed(Some(t)) && t != ""
    ensures Handle(Ai, args, chatId, cfg, prov) ==
      Outcome([Text(chatId, AiAck), Text(chatId, t)], [CompletionCall(Join(args, " "))])
  {
    JoinWordsEmpty(args);
  }

  /** An answer without content (no choice, no message, or empty content) is
      replaced by a fixed notice. */
  lemma AiNoContent(args: seq<string>, chatId: string, cfg: Config, prov: Providers)
    requires Words(args) && args != [] && cfg.openAiKey != ""
    requires prov.complete(Join(args, " ")) in {Completed(None), Completed(Some(""))}
    ensures Handle(Ai, args, chatId, cfg, prov) ==
      Outcome([Text(chatId, AiAck), Text(chatId, AiNoAnswer)], [CompletionCall(Join(args, " "))])
  {
    JoinWordsEmpty(args);
  }

  /** A failing provider call is reported after the acknowledgement as an AI error
      carrying the failure message. */
  lemma AiFailure(args: seq<string>, chatId: string, cfg: Config, prov: Providers, message: string)
    requires Words(args) && args != [] && cfg.openAiKey != ""
    requires prov.complete(Join(args, " ")) == AiFailed(message)
    ensures Handle(Ai, args, chatId, cfg, prov) ==
      Outcome([Text(chatId, AiAck), Text(chatId, AiErrorPrefix + message)], [CompletionCall(Join(args, " "))])
  {
    JoinWordsEmpty(args);
  }

  // ---------------------------------------------------------------- .ytdl

  /** `.ytdl` without a first word that passes validation answers with a usage
      hint and asks nothing; otherwise it asks for that video once and answers
      once, with the thumbnail and caption or with the error. */
  lemma YtdlReplies(args: seq<string>, chatId: string, cfg: Config, prov: Providers)
    requires Words(args)
    ensures args == [] || !prov.validateUrl(args[0]) ==>
      Handle(Ytdl, args, chatId, cfg, prov) == Outcome([Text(chatId, YtdlUsage)], [])
    ensures args != [] && prov.validateUrl(args[0]) ==>
      var url := args[0];
      var r := Handle(Ytdl, args, chatId, cfg, prov);
      && r.calls == [VideoInfoCall(url)]
      && |r.replies| == 1
      && (prov.getInfo(url).VideoFound? ==>
            r.replies[0] == Image(chatId, prov.getInfo(url).details.thumbnailUrl,
              "Title: " + prov.getInfo(url).details.title
              + "\nAuthor: " + prov.getInfo(url).details.author
              + "\nDuration: " + prov.getInfo(url).details.lengthSeconds
              + "s\nURL: " + url))
      && (prov.getInfo(url).VideoFailed? ==>
            r.replies[0] == Text(chatId, YtdlErrorPrefix + prov.getInfo(url).message))
  {
  }

  /** Words after the URL do not change what `.ytdl` does. */
  lemma YtdlIgnoresExtraWords(a1: seq<string>, a2: seq<string>, chatId: string, cfg: Config, prov: Providers)
    requires a1 != [] && a2 != [] && a1[0] == a2[0]
    ensures Handle(Ytdl, a1, chatId, cfg, prov) == Handle(Ytdl, a2, chatId, cfg, prov)
  {
  }
}
