/** The command table of the message handler and the parse of a body into a
    command key and its argument words. */
module Commands {
  import opened Optional
  import opened JsText

  /** The handlers of the dispatch chain, in the order the chain tests them. */
  datatype Command = Ping | Help | Menu | Echo | Owner | Ai | Ytdl | Sticker

  /** The keys that select each handler (compared with `===` against the lower-cased first word). */
  function KeysOf(c: Command): set<string> {
    match c
    case Ping => {"ping"}
    case Help => {"help", ".help"}
    case Menu => {".menu"}
    case Echo => {"echo"}
    case Owner => {"owner"}
    case Ai => {".ai"}
    case Ytdl => {".ytdl"}
    case Sticker => {".sticker"}
  }

  /** The `if`/`else if` chain on `cmd`; a key it does not know selects nothing. */
  function Lookup(key: string): (r: Option<Command>)
    ensures r.Some? ==> key in KeysOf(r.value)
    ensures r.None? ==> forall c: Command :: key !in KeysOf(c)
  {
    if key == "ping" then Some(Ping)
    else if key == "help" || key == ".help" then Some(Help)
    else if key == ".menu" then Some(Menu)
    else if key == "echo" then Some(Echo)
    else if key == "owner" then Some(Owner)
    else if key == ".ai" then Some(Ai)
    else if key == ".ytdl" then Some(Ytdl)
    else if key == ".sticker" then Some(Sticker)
    else None
  }

  /** Every key of a command selects that command: the table is unambiguous. */
  lemma LookupFindsEveryKey(c: Command, key: string)
    requires key in KeysOf(c)
    ensures Lookup(key) == Some(c)
  {
  }

  /** Command keys are written in lower-case ASCII letters and '.'. */
  lemma KeysAreKeyText(c: Command, key: string)
    requires key in KeysOf(c)
    ensures forall k | 0 <= k < |key| :: KeyChar(key[k])
  {
  }

  /** A key typed exactly as listed selects its command. */
  lemma KeySelectsItself(c: Command, key: string)
    requires key in KeysOf(c)
    ensures Lookup(Lower(key)) == Some(c)
  {
    KeysAreKeyText(c, key);
    LowerOfKeyText(key);
    LookupFindsEveryKey(c, key);
  }

  /** A parsed body: its first word, that word lower-cased, and the words after it. */
  datatype Parsed = Parsed(head: string, key: string, args: seq<string>)

  /** The message text with its surrounding whitespace removed; nothing when that
      leaves it empty, otherwise its pieces between whitespace runs, with the first
      piece lower-cased as the command key. The words are the non-empty,
      whitespace-free pieces of the body, in order and in their original case;
      only the key is lower-cased. */
  function Parse(text: string): (r: Option<Parsed>)
    ensures r.None? <==> AllSpace(text)
    ensures r.Some? ==> r.value.head != "" && NoSpace(r.value.head)
    ensures r.Some? ==> r.value.key == Lower(r.value.head)
    ensures r.Some? ==> Words(r.value.args)
  {
    var body := Trim(text);
    if body == "" then None
    else
      var parts := Split(body);
      SplitTrimmedWords(body);
      Some(Parsed(parts[0], Lower(parts[0]), parts[1..]))
  }

  /** The words of a parsed body, joined by single spaces, are the trimmed body
      with each whitespace run collapsed to one space: nothing but spacing is lost. */
  lemma ParseKeepsWords(text: string)
    requires Parse(text).Some?
    ensures Join([Parse(text).value.head] + Parse(text).value.args, " ") == Collapse(Trim(text))
  {
    var parts := Split(Trim(text));
    JoinSplitCollapses(Trim(text));
    assert [parts[0]] + parts[1..] == parts;
  }

  /** The words after the first, joined by single spaces (the echo text and the
      AI prompt), are what follows the first word and one space in the trimmed
      body with its whitespace runs collapsed. */
  lemma RestOfBody(text: string)
    requires Parse(text).Some? && Parse(text).value.args != []
    ensures Parse(text).value.head + " " + Join(Parse(text).value.args, " ") == Collapse(Trim(text))
  {
    var p := Parse(text).value;
    ParseKeepsWords(text);
    JoinCons(p.head, p.args);
  }

  /** Trimming a string that has no whitespace at either end leaves it unchanged. */
  lemma TrimOfTrimmed(s: string)
    requires Trimmed(s)
    ensures Trim(s) == s
  {
    if s != "" {
      assert SkipSpaces(s, 0) == 0;
      assert SkipSpacesBack(s, 0, |s|) == |s|;
    }
  }

  /** Parsing words joined by single spaces recovers the words: the first one as
      the head, the rest as the arguments. */
  lemma ParseOfWords(ws: seq<string>)
    requires |ws| >= 1
    requires Words(ws)
    ensures Parse(Join(ws, " ")) == Some(Parsed(ws[0], Lower(ws[0]), ws[1..]))
  {
    var s := Join(ws, " ");
    JoinWordsStart(ws);
    JoinWordsEnd(ws);
    TrimOfTrimmed(s);
    SplitJoinRoundTrip(ws);
  }

  lemma {:induction false} JoinWordsEnd(ws: seq<string>)
    requires |ws| >= 1
    requires Words(ws)
    ensures Join(ws, " ") != "" && !IsSpace(Join(ws, " ")[|Join(ws, " ")| - 1])
    decreases |ws|
  {
    if |ws| > 1 {
      JoinWordsEnd(ws[1..]);
      var t := Join(ws[1..], " ");
      assert Join(ws, " ") == ws[0] + " " + t;
      assert Join(ws, " ")[|Join(ws, " ")| - 1] == t[|t| - 1];
    }
  }

  /** The key matches a command key exactly when the first word spells it in any
      case, so `PING` selects `ping` while the arguments keep their case. */
  lemma KeyIgnoresCase(text: string, c: Command, key: string)
    requires Parse(text).Some? && key in KeysOf(c)
    ensures Parse(text).value.key == key <==>
      |Parse(text).value.head| == |key| &&
      forall k | 0 <= k < |key| :: SpellsKeyChar(Parse(text).value.head[k], key[k])
  {
    KeysAreKeyText(c, key);
    LowerEqualsKey(Parse(text).value.head, key);
  }
}
