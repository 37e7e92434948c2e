/**
  The game screen's chat: a state record (the loaded character, the message
  list, the text being typed and the channel) and the handlers that turn a
  submitted line into appended messages, either a player message or the
  system replies of a slash command.
*/
module Chat {
  import opened Wrappers
  import opened Text

  datatype Channel = Global | Faction

  datatype Kind = System | Player

  /** A chat line; system lines have no sender and no channel. */
  datatype Message = Message(kind: Kind, sender: Option<string>, content: string, channel: Option<Channel>)

  /** The character record the game screen loads from local storage. */
  datatype GameCharacter = GameCharacter(
    id: int,
    name: string,
    faction: string,
    race: string,
    characterClass: string,
    level: int,
    gold: int)

  datatype ChatState = ChatState(
    character: Option<GameCharacter>,
    messages: seq<Message>,
    input: string,
    channel: Channel)

  function Notice(content: string): Message {
    Message(System, None, content, None)
  }

  /** System lines with the given contents, in order. */
  function Notices(contents: seq<string>): (r: seq<Message>)
    ensures |r| == |contents|
    ensures forall i :: 0 <= i < |r| ==> r[i] == Notice(contents[i])
  {
    if |contents| == 0 then [] else [Notice(contents[0])] + Notices(contents[1..])
  }

  /** Appends one system line; nothing else changes. */
  function AddSystemMessage(st: ChatState, content: string): (r: ChatState)
    ensures |r.messages| == |st.messages| + 1 && st.messages <= r.messages
    ensures r.messages[|st.messages|] == Notice(content)
    ensures r.(messages := st.messages) == st
  {
    st.(messages := st.messages + [Notice(content)])
  }

  /** Appends system lines one after another, in order. */
  function AddSystemMessages(st: ChatState, contents: seq<string>): (r: ChatState)
    ensures r.messages == st.messages + Notices(contents)
    ensures r.(messages := st.messages) == st
    decreases |contents|
  {
    if |contents| == 0 then st
    else
      var st' := AddSystemMessage(st, contents[0]);
      var r := AddSystemMessages(st', contents[1..]);
      var head := [Notice(contents[0])];
      assert st'.messages == st.messages + head && st'.(messages := st.messages) == st;
      assert Notices(contents) == head + Notices(contents[1..]);
      assert (st.messages + head) + Notices(contents[1..]) == st.messages + (head + Notices(contents[1..]));
      r
  }

  /** Appends one player line from the loaded character; without a character nothing changes. */
  function AddPlayerMessage(st: ChatState, content: string, channel: Channel): (r: ChatState)
    ensures st.character.None? ==> r == st
    ensures st.character.Some? ==>
      r == st.(messages := st.messages + [Message(Player, Some(st.character.value.name), content, Some(channel))])
  {
    match st.character
    case None => st
    case Some(c) => st.(messages := st.messages + [Message(Player, Some(c.name), content, Some(channel))])
  }

  /** The recognised commands; any other first word is echoed back as unknown. */
  datatype Command = Help | Who | Time | Stats | Unknown(word: string)

  /** The first space-separated word of a command line. */
  function CommandWord(line: string): (w: string)
    ensures StartsWith(line, w) && ' ' !in w
  {
    FirstFieldIsPrefix(line, ' ');
    Fields(line, ' ')[0]
  }

  /** Classifies a command line by its first word, ignoring the case of ASCII letters. */
  function ParseCommand(line: string): (c: Command)
    ensures c == Help <==> Lower(CommandWord(line)) == "/help"
    ensures c == Who <==> Lower(CommandWord(line)) == "/who"
    ensures c == Time <==> Lower(CommandWord(line)) == "/time"
    ensures c == Stats <==> Lower(CommandWord(line)) == "/stats"
    ensures c.Unknown? ==> c.word == CommandWord(line)
  {
    var w := CommandWord(line);
    var k := Lower(w);
    if k == "/help" then Help
    else if k == "/who" then Who
    else if k == "/time" then Time
    else if k == "/stats" then Stats
    else Unknown(w)
  }

  const Bullet := "\U{E2}\U{20AC}\U{A2} "

  const HelpLines := [
    "Available commands:",
    "/help - Show this help message",
    "/who - Show online players",
    "/time - Show game time",
    "/stats - Show your character stats"]

  /** A character field as template text, "undefined" without a character. */
  function Shown(c: Option<GameCharacter>, f: GameCharacter -> string): string {
    if c.None? then "undefined" else f(c.value)
  }

  function WhoLines(c: Option<GameCharacter>): seq<string> {
    ["Online Players:",
     Bullet + Shown(c, (g: GameCharacter) => g.name) + " (You) - Level "
       + Shown(c, (g: GameCharacter) => IntToString(g.level)) + " "
       + Shown(c, (g: GameCharacter) => g.race) + " "
       + Shown(c, (g: GameCharacter) => g.characterClass),
     Bullet + "[Other players would appear here]"]
  }

  function TimeLine(clock: string): string {
    "Current time: " + clock
  }

  function StatsLines(c: GameCharacter): seq<string> {
    ["=== " + c.name + "'s Stats ===",
     "Race: " + c.race,
     "Class: " + c.characterClass,
     "Faction: " + c.faction,
     "Level: " + IntToString(c.level),
     "Gold: " + IntToString(c.gold)]
  }

  function UnknownLine(word: string): string {
    "Unknown command: " + word + ". Type /help for available commands."
  }

  /**
    A slash command: appends only system lines, as many as the command
    prints (5 for help, 3 for who, 1 for time, 6 for stats with a character
    and none without, 1 for anything else), and changes nothing but the
    message list. `clock` is the rendered local time.
  */
  function HandleCommand(st: ChatState, line: string, clock: string): (r: ChatState)
    ensures r.(messages := st.messages) == st
    ensures st.messages <= r.messages
    ensures forall i :: |st.messages| <= i < |r.messages| ==> r.messages[i].kind == System
    ensures |r.messages| - |st.messages| == match ParseCommand(line)
      case Help => 5
      case Who => 3
      case Time => 1
      case Stats => if st.character.Some? then 6 else 0
      case Unknown(_) => 1
    ensures ParseCommand(line).Unknown? ==>
      r.messages == st.messages + [Notice(UnknownLine(CommandWord(line)))]
  {
    match ParseCommand(line)
    case Help => AddSystemMessages(st, HelpLines)
    case Who => AddSystemMessages(st, WhoLines(st.character))
    case Time => AddSystemMessage(st, TimeLine(clock))
    case Stats =>
      if st.character.Some? then AddSystemMessages(st, StatsLines(st.character.value)) else st
    case Unknown(w) => AddSystemMessage(st, UnknownLine(w))
  }

  /**
    Submitting the typed line. A line that is blank once trimmed, or a
    screen without a character, changes nothing. Otherwise the trimmed line
    is run as a command when it starts with "/", or appended as one player
    message on the current channel, and the input is cleared.
  */
  function SendMessage(st: ChatState, clock: string): (r: ChatState)
    ensures JsTrim(st.input) == "" || st.character.None? ==> r == st
    ensures r.character == st.character && r.channel == st.channel
    ensures st.messages <= r.messages
    ensures JsTrim(st.input) != "" && st.character.Some? ==> r.input == ""
    ensures JsTrim(st.input) != "" && st.character.Some? && !StartsWith(JsTrim(st.input), "/") ==>
      r.messages == st.messages + [Message(Player, Some(st.character.value.name), JsTrim(st.input), Some(st.channel))]
    ensures JsTrim(st.input) != "" && st.character.Some? && StartsWith(JsTrim(st.input), "/") ==>
      r.messages == HandleCommand(st, JsTrim(st.input), clock).messages
  {
    var line := JsTrim(st.input);
    if line == "" then st
    else if st.character.None? then st
    else
      var st' := if StartsWith(line, "/") then HandleCommand(st, line, clock)
                 else AddPlayerMessage(st, line, st.channel);
      st'.(input := "")
  }

  /** What opening the game screen does: the initial state, plus a delayed redirect and an error notice when no character is stored. */
  datatype Mounted = Mounted(state: ChatState, redirect: Option<string>, delayMs: int, error: Option<string>)

  const NoCharacterError := "No character found. Redirecting to character creation..."

  /**
    Opening the game screen: a stored character is loaded and greeted with
    two system lines; without one, the screen stays empty and redirects to
    faction selection after two seconds.
  */
  function Mount(stored: Option<GameCharacter>): (m: Mounted)
    ensures m.state.character == stored && m.state.input == "" && m.state.channel == Global
    ensures stored.Some? ==> (m.redirect.None? && m.error.None? && m.state.messages ==
      [Notice("Welcome to the world, " + stored.value.name + "!"), Notice("Use the chat to communicate with world.")])
    ensures stored.None? ==> (m.state.messages == [] && m.redirect == Some("/faction-selection")
      && m.delayMs == 2000 && m.error == Some(NoCharacterError))
  {
    var empty := ChatState(stored, [], "", Global);
    match stored
    case Some(c) =>
      var st := AddSystemMessages(empty, ["Welcome to the world, " + c.name + "!", "Use the chat to communicate with world."]);
      Mounted(st, None, 0, None)
    case None => Mounted(empty, Some("/faction-selection"), 2000, Some(NoCharacterError))
  }

  /** Typing replaces the input text. */
  function Type(st: ChatState, text: string): (r: ChatState)
    ensures r.input == text && r.(input := st.input) == st
  {
    st.(input := text)
  }

  /** Typing each line of `lines` in turn and submitting it; `clocks` gives the time at each submission. */
  function Session(st: ChatState, lines: seq<string>, clocks: seq<string>): ChatState
    requires |clocks| == |lines|
    decreases |lines|
  {
    if |lines| == 0 then st
    else Session(SendMessage(Type(st, lines[0]), clocks[0]), lines[1..], clocks[1..])
  }

  /** Over any number of submissions the messages are only appended to, never removed or reordered. */
  lemma {:induction false} SessionAppendOnly(st: ChatState, lines: seq<string>, clocks: seq<string>)
    requires |clocks| == |lines|
    ensures st.messages <= Session(st, lines, clocks).messages
    ensures Session(st, lines, clocks).character == st.character
    decreases |lines|
  {
    if |lines| > 0 {
      var st' := SendMessage(Type(st, lines[0]), clocks[0]);
      SessionAppendOnly(st', lines[1..], clocks[1..]);
      var r := Session(st', lines[1..], clocks[1..]);
      assert r.messages[..|st.messages|] == r.messages[..|st'.messages|][..|st.messages|];
    }
  }

  /** Every player line is attributed to the given name. */
  predicate SentBy(messages: seq<Message>, name: string) {
    forall i :: 0 <= i < |messages| && messages[i].kind == Player ==> messages[i].sender == Some(name)
  }

  /** Submitting keeps every player line attributed to the loaded character. */
  lemma SendKeepsSenders(st: ChatState, c: GameCharacter, clock: string)
    requires st.character == Some(c) && SentBy(st.messages, c.name)
    ensures SentBy(SendMessage(st, clock).messages, c.name)
  {
    var r := SendMessage(st, clock);
    forall i | 0 <= i < |r.messages| && r.messages[i].kind == Player
      ensures r.messages[i].sender == Some(c.name)
    {
      if i < |st.messages| {
        assert r.messages[i] == r.messages[..|st.messages|][i];
      }
    }
  }

  /** Over a whole session, every player line comes from the loaded character. */
  lemma {:induction false} SessionKeepsSenders(st: ChatState, c: GameCharacter, lines: seq<string>, clocks: seq<string>)
    requires |clocks| == |lines|
    requires st.character == Some(c) && SentBy(st.messages, c.name)
    ensures SentBy(Session(st, lines, clocks).messages, c.name)
    decreases |lines|
  {
    if |lines| > 0 {
      var t := Type(st, lines[0]);
      SendKeepsSenders(t, c, clocks[0]);
      SessionKeepsSenders(SendMessage(t, clocks[0]), c, lines[1..], clocks[1..]);
    }
  }

  /** Without a loaded character no submission adds a message. */
  lemma {:induction false} SessionWithoutCharacter(st: ChatState, lines: seq<string>, clocks: seq<string>)
    requires |clocks| == |lines|
    requires st.character.None?
    ensures Session(st, lines, clocks).messages == st.messages
    decreases |lines|
  {
    if |lines| > 0 {
      SessionWithoutCharacter(SendMessage(Type(st, lines[0]), clocks[0]), lines[1..], clocks[1..]);
    }
  }

  /**
    A game screen, whatever is typed into it afterwards: with a stored
    character the greeting stays at the top and every player line is that
    character's; without one, the list stays empty while the redirect is pending.
  */
  lemma MountedSession(stored: Option<GameCharacter>, lines: seq<string>, clocks: seq<string>)
    requires |clocks| == |lines|
    ensures var m := Mount(stored); var r := Session(m.state, lines, clocks);
      && m.state.messages <= r.messages
      && (stored.Some? ==> |r.messages| >= 2 && SentBy(r.messages, stored.value.name))
      && (stored.None? ==> r.messages == [])
  {
    var m := Mount(stored);
    SessionAppendOnly(m.state, lines, clocks);
    match stored
    case Some(c) => SessionKeepsSenders(m.state, c, lines, clocks);
    case None => SessionWithoutCharacter(m.state, lines, clocks);
  }

  /** The command word is matched without regard to case: "/HeLp" is the help command. */
  lemma CommandCaseInsensitive()
    ensures ParseCommand("/HeLp") == Help
  {
    assert Fields("/HeLp", ' ') == ["/HeLp"] by {
      FieldsNoSep("/HeLp", ' ');
    }
    assert Lower("/HeLp") == "/help";
  }

  /** Arguments after the command word do not change the command. */
  lemma ArgumentsIgnored(word: string, args: string)
    requires ' ' !in word
    ensures ParseCommand(word + " " + args) == ParseCommand(word)
  {
    FieldsConcat(word, args, ' ');
    FieldsNoSep(word, ' ');
    assert word + " " + args == word + [' '] + args;
  }

  /** "/Dance" is not a command word, in any case. */
  lemma DanceIsUnknown()
    ensures ParseCommand("/Dance now") == Unknown("/Dance")
  {
    assert "/Dance now" == "/Dance" + " " + "now";
    ArgumentsIgnored("/Dance", "now");
    FieldsNoSep("/Dance", ' ');
    assert CommandWord("/Dance") == "/Dance";
    var k := Lower("/Dance");
    assert |k| == 6 && k[1] == LowerChar('D') == 'd';
    assert k != "/help" && k != "/who" && k != "/time" && k != "/stats" by {
      assert "/stats"[1] == 's' && |"/help"| == 5 && |"/who"| == 4 && |"/time"| == 5;
    }
  }

  /** An unknown command is echoed with the case the player typed. */
  lemma UnknownEchoesCase(st: ChatState, clock: string)
    ensures HandleCommand(st, "/Dance now", clock).messages
      == st.messages + [Notice(UnknownLine("/Dance"))]
  {
    DanceIsUnknown();
  }
}
