# WhatsApp multi-function bot: message pipeline and reconnect decision

This project models, in Dafny, the behaviour of the two event listeners of the
bot in `index.js`, written as pure functions:

- the `messages.upsert` listener, which takes the first message of a batch,
  - skips it when it has no content or is the bot's own;
  - reads its body text from the first property of its content object;
  - trims the body, splits it on whitespace runs and lower-cases the first word;
  - dispatches on that word through a fixed chain of command keys (`ping`, `help`,
    `.help`, `.menu`, `echo`, `owner`, `.ai`, `.ytdl`, `.sticker`);
- the `connection.update` listener, which renders a pairing QR code when one
  arrives and, on a close, calls `startBot()` again unless the network logged the
  device out (status 401, `DisconnectReason.loggedOut` of the Baileys library);
- the configuration defaults `OPENAI_KEY` and `OWNER`.

Each event becomes an `Outcome`: the replies sent, in order, and the requests
made to the external providers. The AI completion service, `ytdl.validateURL`
and `ytdl.getInfo` are parameters (`Dispatch.Providers`): what each answers for
a given prompt or URL. So every property holds for all provider behaviours.

The modules follow the pipeline:

- `Optional` (`optional.dfy`) models `Option` and JavaScript's `x || default`.
- `JsText` (`text.dfy`) models the string operations the handler uses:
  - `trim`, `split(/\s+/)` and `join`, over the ECMAScript whitespace and line-terminator set;
  - `toLowerCase` as far as command keys are concerned;
  - `endsWith`.
- `Events` (`events.dfy`) turns a raw message into chat, sender, group flag and text.
- `Commands` (`commands.dfy`) holds the command table and the parse of a body.
- `Dispatch` (`dispatch.dfy`) holds the configuration, the handlers, the route from text to replies, and the whole listener.
- `Replies` (`replies.dfy`) states what each command sends, and how the text reaches the handler.
- `Connection` (`connection.dfy`) holds the reconnect decision.

Some facts about `index.js` that shape the model:

- The keys `.menu`, `.ai`, `.ytdl` and `.sticker` carry a leading dot; `ping`, `echo` and `owner` do not.
- `help` and `.help` both select the help line.
- The menu text does not list `owner` or `.help`, so the model makes no claim that the menu lists every command.
- The body text comes from the first property of the content object only; later properties are never read.
- `.ytdl` reads `parts[1]` only; words after the URL are ignored.
- Each handler formats its own error text (`Error AI: …`, `Gagal ambil info YouTube: …`) inside its own `try`.
- A message whose key is unknown gets no reply.

## Model

| member | source | states |
|---|---|---|
| Optional.OrElse | index.js:93 | the JavaScript or-default on an optional string: the default exactly when the value is missing or empty, otherwise the value |
| Dispatch.ConfigFromEnv | index.js:30-31 | the API key is empty exactly when the variable is unset or empty; the owner is never empty and is `owner-number-not-set` unless the variable holds a non-empty value |
| JsText.Trim | index.js:93 | the result has no whitespace at either end, is empty exactly when the input is all whitespace, and is the input with a whitespace prefix and suffix removed |
| JsText.Split | index.js:97 | splitting yields at least one piece and no piece contains whitespace |
| JsText.SplitTrimmedWords | index.js:97 | a non-blank trimmed body splits into non-empty pieces only |
| JsText.JoinSplitCollapses | index.js:97 | re-joining the split pieces with single spaces equals the reference definition that collapses every whitespace run to one space |
| JsText.SplitJoinRoundTrip | index.js:97 | splitting words joined by single spaces gives back exactly those words |
| JsText.JoinWordsEmpty | index.js:123-124 | words joined by spaces are empty exactly when there are no words |
| JsText.JoinCons | index.js:118 | joining a word in front of a non-empty list inserts exactly one space |
| JsText.LowerOfKeyText | index.js:98 | text written in lower-case ASCII letters and dots is unchanged by lower-casing |
| JsText.LowerEqualsKey | index.js:98 | a word lower-cases to a command key exactly when it spells the key letter by letter in any case (the KELVIN SIGN counting as `K`) |
| JsText.EndsWithIff | index.js:81 | `endsWith` holds exactly when the string is some prefix followed by the suffix |
| Events.BodyText | index.js:83-89 | the text is chosen by the first content property alone: conversation, extended text or image caption, `''` for anything else or a missing value, and a failure for a `null` payload |
| Events.BodyTextFirstFieldOnly | index.js:83 | content properties after the first never change the body text |
| Events.Normalise | index.js:78-89 | an empty batch crashes, a missing content object or an own message is skipped; any other message with a missing key, a missing chat id or a `null` payload crashes with that fault, checked in that order; a message is accepted exactly when none of these holds, and then carries its chat id, its text, the group flag (the chat id ends with `@g.us`) and the participant or chat id as sender |
| Events.NormaliseFirstOnly | index.js:78 | only the first message of a batch is looked at |
| Commands.Lookup | index.js:101-167 | a key that selects a command is one of that command's keys; a key that selects nothing is a key of no command |
| Commands.LookupFindsEveryKey | index.js:101-163 | every key of every command selects that command, so the chain is unambiguous |
| Commands.KeysAreKeyText | index.js:101-161 | every command key is written in lower-case ASCII letters and dots |
| Commands.KeySelectsItself | index.js:98-101 | a key typed exactly as listed selects its command |
| Commands.Parse | index.js:93-98 | nothing is parsed exactly when the body is blank; otherwise the first word and the arguments are non-empty and whitespace-free, and the key is the lower-cased first word |
| Commands.ParseKeepsWords | index.js:93-98 | the first word and the arguments, joined by single spaces, are the trimmed body with its whitespace runs collapsed: only spacing is lost, case is kept |
| Commands.RestOfBody | index.js:117-123 | the joined arguments (the echo text and the AI prompt) follow the first word and one space in the collapsed, trimmed body |
| Commands.TrimOfTrimmed | index.js:93 | trimming text without whitespace at its ends changes nothing |
| Commands.ParseOfWords | index.js:93-98 | parsing words joined by single spaces gives back the first word, its lower case and the remaining words |
| Commands.KeyIgnoresCase | index.js:98-101 | the key equals a command key exactly when the first word spells it in any case, so `PING` selects `ping` |
| Dispatch.AskAi | index.js:128-141 | the second `.ai` reply goes to the chat; the provider is asked exactly when the key is set, and then once with the prompt |
| Dispatch.HandleEcho | index.js:117-119 | `echo` sends one non-empty text to the chat and asks no provider: the argument words joined by single spaces, or `Nothing to echo.` when that join is empty |
| Dispatch.HandleAi | index.js:122-142 | `.ai` sends two replies exactly when the prompt is non-empty, the acknowledgement first; a provider request is made only with a key set, and only with the prompt |
| Dispatch.HandleYtdl | index.js:143-160 | `.ytdl` sends exactly one reply; it asks for the video exactly when `parts[1]` exists, is non-empty and passes validation, and then for that URL only |
| Dispatch.Handle | index.js:100-167 | every handler replies to the originating chat, once or twice; twice exactly for `.ai` with a prompt; at most one provider request, made only by `.ai` with a prompt or `.ytdl` with a URL |
| Dispatch.Route | index.js:93-167 | replies go to the originating chat; a blank body gives nothing; there is no reply exactly when the body is blank or its key is unknown, and then there is no provider request either |
| Dispatch.OnUpsert | index.js:76-171 | a skipped or crashing event sends nothing; a missing content object or an own message sends nothing; any reply goes to the message's `remoteJid`; at most two replies and one provider request; an accepted message gets exactly what the route sends for its chat and text |
| Replies.RouteRuns | index.js:97-167 | a message whose key belongs to a command runs that command's handler on the words after the key |
| Replies.RouteOfWords | index.js:93-167 | a message made of words separated by single spaces runs the handler its first word selects, in any case, on the remaining words |
| Replies.RouteDependsOnWords | index.js:93-167 | what is sent depends only on the chat and the parsed words, not on spacing or the sender |
| Replies.OnlyFirstMessage | index.js:76-79 | the whole listener ignores every message after the first |
| Replies.FixedReplies | index.js:101-163 | `ping`, `help`, `.menu`, `owner` and `.sticker` send one fixed text (`Pong!`, the help line, the menu, `Owner: ` and the owner, the sticker notice), independent of the arguments and the providers, and ask nothing |
| Replies.EchoReply | index.js:117-119 | `echo` without words sends `Nothing to echo.`; otherwise one text, the words joined by single spaces, which splits back into exactly the words given |
| Replies.EchoRepeatsRest | index.js:93-119 | `echo` followed by words sends one text: the rest of the trimmed message after the first word, with every whitespace run collapsed to one space |
| Replies.ConversationRoutes | index.js:76-98 | a conversation message from another user with a chat id is accepted with that chat id and text, and the listener sends exactly what the route sends for it |
| Replies.PingAnswered | index.js:76-102 | a conversation message from another user whose first word is `ping` in any case is answered with one `Pong!` in its chat, and no provider is asked |
| Replies.AiUsageHint | index.js:122-125 | `.ai` sends only `Kirim: .ai <pertanyaan>` exactly when no words follow the key |
| Replies.AiWithoutKey | index.js:126-141 | with a prompt and no key, the acknowledgement then `Error AI: OPENAI_API_KEY not set`, and no provider request |
| Replies.AiAnswered | index.js:126-137 | with a prompt and a key, the acknowledgement then the provider's content, after one request with the prompt |
| Replies.AiNoContent | index.js:136-137 | an answer without content, or with empty content, is replaced by `AI tidak memberikan jawaban.` |
| Replies.AiFailure | index.js:138-141 | a failing provider request is reported as `Error AI: ` followed by the failure message |
| Replies.YtdlReplies | index.js:143-160 | without a URL that passes validation, only the usage hint and no request; otherwise one request for that URL and one reply, either the thumbnail with the `Title/Author/Duration/URL` caption or `Gagal ambil info YouTube: ` and the error |
| Replies.YtdlIgnoresExtraWords | index.js:144-145 | words after the URL do not change what `.ytdl` does |
| Connection.CloseStatus | index.js:65 | the optional chain yields a status code only when every layer of the disconnect error is present |
| Connection.LoggedOutStatus | index.js:65 | the chain yields 401 exactly when the network reported a logout |
| Connection.OnConnectionUpdate | index.js:57-74 | a close restarts the bot exactly when it is not a logout and is logged as a logout otherwise; nothing but a close restarts; a QR code is rendered exactly when a non-empty one arrives |
| Connection.MissingStatusRestarts | index.js:63-67 | a close without an error, an output or a status code restarts the bot |
| Connection.Restarts | index.js:63-67 | a stream of updates restarts the bot at most once per update, and not at all exactly when none of them is a non-logout close |
| Connection.RestartsAppend | index.js:63-67 | the restarts of consecutive stretches of updates add up |

## Left out

- Socket creation, `fetchLatestBaileysVersion`, `useMultiFileAuthState` and `saveCreds`, the in-memory store and its ten-second snapshot, and drawing the QR code: these are library I/O. `Connection.OnConnectionUpdate` only records whether a code is rendered.
- Logging (`console.log`, `console.error`) has no effect on replies and is not modelled.
- `process.exit` and the top-level `startBot().catch`: they are outside the two listeners.
- A `sock.sendMessage` that fails: the model assumes every send succeeds. What a failed send does depends on where it is. A send outside the inner `try` blocks would throw to the outer `catch` and end the handler; this includes the usage hints, the fixed replies and the `.ai` acknowledgement. A failed send of the AI answer (index.js:137) is caught by the inner `catch` at index.js:138, which then sends `Error AI: …` (index.js:140). Likewise a failed thumbnail send (index.js:155) is caught at index.js:156, which then sends `Gagal ambil info YouTube: …` (index.js:158).
- Asynchronous interleaving: the order of replies across concurrent events is not modelled. Each event is handled as if alone.
- The socket listeners of an earlier `startBot()` are not removed on a restart. The model handles one socket's events and does not model the duplicate listeners.
- The OpenAI client: the model name, `max_tokens`, and how `choices[0].message.content` is reached are folded into the provider answer (`Dispatch.AiOutcome`).
- `ytdl-core`: `validateURL`, `getInfo`, `author.name` and `thumbnails.pop().url` are folded into the provider answer (`Dispatch.VideoOutcome`). A video without thumbnails throws inside the same `try`, so it counts as a failure with its message.
- `Dispatch.VideoDetails`: `lengthSeconds` is kept as the string the library reports.
- `type` of the upsert event is ignored by the code and is not modelled.
- `JsText.Lower`: models `toLowerCase` for ASCII letters and the KELVIN SIGN only. Every other code point is left as is. Some other code points do lower-case to text containing a key character: U+0130 (İ) becomes `i` followed by U+0307 COMBINING DOT ABOVE. Such a result always contains a character that is not a lower-case ASCII letter or a dot, and no command key contains one. So which command is selected is exact, but `Parsed.key` for other letters is not the JavaScript string.
- Strings are sequences of Unicode scalar values, not UTF-16 code units. Lone surrogates are not modelled. All whitespace characters are in the Basic Multilingual Plane, so trimming and splitting agree.
- `Events.Inbound`: `sender` and `isGroup` are computed, as the code does, but no handler uses them.
- Backoff and retry limits: the code restarts immediately and without limit, and the model states exactly that.
