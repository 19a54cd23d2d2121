/**
 The line editor as a two-part line (before and after the cursor), a history position, a suggestion
 menu and a paste in progress. The class in RawInput.dfy refines it.
 */
module EditorModel {
  import opened Text

  datatype Suggestion = Suggestion(name: string, isFlag: bool)

  datatype Flag = Flag(name: string, hasValue: bool, placeholder: string)

  /** What does not change while a line is edited. */
  datatype Env = Env(commands: seq<string>, flags: map<string, seq<Flag>>, history: seq<string>, bracketed: bool)

  datatype Line = Line(before: string, after: string) {
    function Text(): string {
      before + after
    }
  }

  datatype Menu = Menu(items: seq<Suggestion>, selected: int, showing: bool) {
    predicate Open() {
      showing && items != []
    }
  }

  datatype Paste = Paste(active: bool, text: string, timer: bool)

  datatype Session = Session(line: Line, nav: int, saved: string, menu: Menu, paste: Paste)

  datatype Outcome = Continue | Submit(value: string) | Cancel | Exit

  predicate WellFormed(env: Env, s: Session) {
    && -1 <= s.nav < |env.history|
    && 0 <= s.menu.selected
    && (s.menu.items != [] ==> s.menu.selected < |s.menu.items|)
  }

  // ---------------------------------------------------------------------------
  // Keys
  // ---------------------------------------------------------------------------

  const ESC := '\U{1B}'
  const PASTE_START := [ESC, '[', '2', '0', '0', '~']
  const PASTE_END := [ESC, '[', '2', '0', '1', '~']

  datatype Key =
    | CtrlC | CtrlD | Escape
    | Up | Down | Left | Right | Home | End
    | Tab | Enter
    | Backspace | DeleteForward
    | ClearScreen | KillToEnd | KillToStart | KillWord | Transpose
    | Input(data: string)

  function KeyOf(data: string): Key {
    if data == "\U{03}" then CtrlC
    else if data == "\U{04}" then CtrlD
    else if data == [ESC] then Escape
    else if data == [ESC] + "[A" then Up
    else if data == [ESC] + "[B" then Down
    else if data == [ESC] + "[D" then Left
    else if data == [ESC] + "[C" then Right
    else if data == [ESC] + "[H" || data == [ESC] + "[1~" || data == [ESC] + "[7~" || data == "\U{01}" then Home
    else if data == [ESC] + "[F" || data == [ESC] + "[4~" || data == [ESC] + "[8~" || data == "\U{05}" then End
    else if data == "\t" then Tab
    else if data == "\r" || data == "\n" then Enter
    else if data == "\U{7F}" || data == "\U{08}" then Backspace
    else if data == [ESC] + "[3~" then DeleteForward
    else if data == "\U{0C}" then ClearScreen
    else if data == "\U{0B}" then KillToEnd
    else if data == "\U{15}" then KillToStart
    else if data == "\U{17}" then KillWord
    else if data == "\U{14}" then Transpose
    else Input(data)
  }

  // ---------------------------------------------------------------------------
  // Suggestions
  // ---------------------------------------------------------------------------

  /** `s.split(/\s+/)` */
  function SplitSpaces(s: string): (parts: seq<string>)
    ensures parts != []
    decreases |s|
  {
    if s == "" then [""]
    else if IsSpace(s[0]) then
      TrimStartShorter(s[1..]);
      [""] + SplitSpaces(TrimStart(s[1..]))
    else
      var rest := SplitSpaces(s[1..]);
      [[s[0]] + rest[0]] + rest[1..]
  }

  lemma TrimStartShorter(s: string)
    ensures |TrimStart(s)| <= |s|
  {
  }

  function MatchingCommands(commands: seq<string>, partial: string): seq<Suggestion> {
    if commands == [] then []
    else
      (if StartsWith(Lower(commands[0]), partial) then [Suggestion(commands[0], false)] else [])
      + MatchingCommands(commands[1..], partial)
  }

  function MatchingFlags(flags: seq<Flag>, partial: string): seq<Suggestion> {
    if flags == [] then []
    else
      var f := flags[0];
      var value := if f.placeholder == "" then "<value>" else f.placeholder;
      var shown := if f.hasValue then f.name + " " + value else f.name;
      var rest := MatchingFlags(flags[1..], partial);
      if StartsWith(Lower(f.name), partial) then [Suggestion(shown, true)] + rest else rest
  }

  /** The suggestions for a text; None where the menu is emptied without moving the selection. */
  function Suggest(env: Env, text: string): Option<seq<Suggestion>> {
    if !StartsWith(text, "/") then None
    else
      var parts := SplitSpaces(text[1..]);
      var last := parts[|parts| - 1];
      if |parts| == 1 then Some(MatchingCommands(env.commands, Lower(parts[0])))
      else if StartsWith(last, "-") then
        var command := Lower(parts[0]);
        Some(MatchingFlags(if command in env.flags then env.flags[command] else [], Lower(last)))
      else None
  }

  function Refreshed(env: Env, menu: Menu, text: string): Menu {
    var items := Suggest(env, text);
    if items.None? then Menu([], menu.selected, false) else Menu(items.value, 0, items.value != [])
  }

  /** The text brings up a menu. */
  predicate Suggests(env: Env, text: string) {
    Suggest(env, text).Some? && Suggest(env, text).value != []
  }

  // ---------------------------------------------------------------------------
  // Editing
  // ---------------------------------------------------------------------------

  /** The line after an edit, with the menu that belongs to it. */
  function Edited(env: Env, s: Session, line: Line): Session {
    s.(line := line, menu := Refreshed(env, s.menu, line.Text()))
  }

  function DropSpaces(s: string): string {
    if s != "" && s[|s| - 1] == ' ' then DropSpaces(s[..|s| - 1]) else s
  }

  function DropWord(s: string): string {
    if s != "" && s[|s| - 1] != ' ' then DropWord(s[..|s| - 1]) else s
  }

  function Swapped(s: string): string {
    if |s| < 2 then s else s[..|s| - 2] + [s[|s| - 1], s[|s| - 2]]
  }

  predicate Printable(c: char) {
    ' ' <= c <= '~'
  }

  function KeepPrintable(s: string): string {
    if s == "" then "" else (if Printable(s[0]) then [s[0]] else "") + KeepPrintable(s[1..])
  }

  function KeepPasted(s: string): string {
    if s == "" then "" else (if Printable(s[0]) || s[0] == '\t' then [s[0]] else "") + KeepPasted(s[1..])
  }

  function Inserted(env: Env, s: Session, text: string): Session {
    if text == "" then s else Edited(env, s, Line(s.line.before + text, s.line.after))
  }

  function Pasted(env: Env, s: Session, content: string): Session {
    Inserted(env, s, KeepPasted(content))
  }

  /** Much text at once is a paste where the terminal does not mark pastes. */
  function Typed(env: Env, s: Session, data: string): Session {
    if |data| > 10 && !env.bracketed then Pasted(env, s, data) else Inserted(env, s, KeepPrintable(data))
  }

  /** The entry `back` places from the newest. */
  function Entry(env: Env, back: int): string
    requires 0 <= back < |env.history|
  {
    env.history[|env.history| - 1 - back]
  }

  function UpStep(env: Env, s: Session): Session
    requires WellFormed(env, s)
  {
    if s.menu.Open() then
      s.(menu := s.menu.(selected := if s.menu.selected >= 1 then s.menu.selected - 1 else 0))
    else if env.history == [] then s
    else
      var nav := if s.nav + 1 < |env.history| then s.nav + 1 else |env.history| - 1;
      Edited(env,
             s.(nav := nav, saved := if s.nav == -1 then s.line.Text() else s.saved),
             Line(Entry(env, nav), ""))
  }

  lemma UpRecalls(env: Env, s: Session)
    requires WellFormed(env, s) && !s.menu.Open() && env.history != []
    ensures WellFormed(env, UpStep(env, s))
    ensures var nav := if s.nav + 1 < |env.history| then s.nav + 1 else |env.history| - 1;
            UpStep(env, s) == Edited(env, s.(nav := nav, saved := if s.nav == -1 then s.line.Text() else s.saved),
                                     Line(env.history[|env.history| - 1 - nav], ""))
  {
  }

  function DownStep(env: Env, s: Session): Session
    requires WellFormed(env, s)
  {
    if s.menu.Open() then
      s.(menu := s.menu.(selected := if s.menu.selected + 1 < |s.menu.items| then s.menu.selected + 1
                                     else |s.menu.items| - 1))
    else if s.nav == -1 then s
    else
      var nav := s.nav - 1;
      Edited(env, s.(nav := nav), Line(if nav == -1 then s.saved else Entry(env, nav), ""))
  }

  /** The line once the selected suggestion is taken over. */
  function Accepted(s: Session): Line
    requires s.menu.Open() && 0 <= s.menu.selected < |s.menu.items|
  {
    var chosen := s.menu.items[s.menu.selected];
    if chosen.isFlag then
      var parts := SplitSpaces(s.line.before);
      Line(Join(parts[|parts| - 1 := Split(chosen.name, ' ')[0]], ' ') + " ", s.line.after)
    else
      Line("/" + chosen.name + " ", "")
  }

  function Close(s: Session): Session {
    s.(menu := s.menu.(showing := false))
  }

  function StopPaste(s: Session): Session {
    s.(paste := Paste(false, "", false))
  }

  /** A key outside a bracketed paste. */
  function PressKey(env: Env, s: Session, key: Key): (Session, Outcome)
    requires WellFormed(env, s)
  {
    var before, after := s.line.before, s.line.after;
    match key
    case CtrlC => (StopPaste(s), Cancel)
    case CtrlD => (StopPaste(s), Exit)
    case Escape =>
      if s.paste.active then
        (StopPaste(if s.paste.text != "" then Pasted(env, s, s.paste.text) else s), Continue)
      else if s.menu.showing then (Close(s), Continue)
      else (s, Continue)
    case Up => (UpStep(env, s), Continue)
    case Down => (DownStep(env, s), Continue)
    case Left =>
      if before == "" then (s, Continue)
      else (s.(line := Line(before[..|before| - 1], [before[|before| - 1]] + after)), Continue)
    case Right =>
      if after == "" then (s, Continue)
      else (s.(line := Line(before + [after[0]], after[1..])), Continue)
    case Home => (s.(line := Line("", s.line.Text())), Continue)
    case End => (s.(line := Line(s.line.Text(), "")), Continue)
    case Tab => if s.menu.Open() then (Close(s.(line := Accepted(s))), Continue) else (s, Continue)
    case Enter =>
      if s.menu.Open() then (Close(s.(line := Accepted(s))), Submit(Accepted(s).Text()))
      else (s, Submit(s.line.Text()))
    case Backspace =>
      if before == "" then (s, Continue) else (Edited(env, s, Line(before[..|before| - 1], after)), Continue)
    case DeleteForward =>
      if after == "" then (s, Continue) else (Edited(env, s, Line(before, after[1..])), Continue)
    case ClearScreen => (s, Continue)
    case KillToEnd => (Edited(env, s, Line(before, "")), Continue)
    case KillToStart => (Edited(env, s, Line("", after)), Continue)
    case KillWord => (Edited(env, s, Line(DropWord(DropSpaces(before)), after)), Continue)
    case Transpose => (s.(line := Line(Swapped(before), after)), Continue)
    case Input(data) => (Typed(env, s, data), Continue)
  }

  /** A chunk while the terminal marks pastes; None when it is not part of one. */
  function PressPaste(env: Env, s: Session, data: string): Option<Session> {
    var end := IndexOf(data, PASTE_END);
    if StartsWith(data, PASTE_START) then
      if end != -1 then
        Some(Pasted(env, s.(paste := s.paste.(active := false, text := "")), if end >= 6 then data[6..end] else ""))
      else
        Some(s.(paste := Paste(true, data[6..], true)))
    else if s.paste.active then
      if end != -1 then
        Some(Pasted(env, s.(paste := Paste(false, "", false)), s.paste.text + data[..end]))
      else
        Some(s.(paste := s.paste.(text := s.paste.text + data)))
    else if end != -1 then Some(s)
    else None
  }

  /** `handleInput` */
  function Press(env: Env, s: Session, data: string): (Session, Outcome)
    requires WellFormed(env, s)
  {
    var pasted := if env.bracketed then PressPaste(env, s, data) else None;
    if pasted.Some? then (pasted.value, Continue) else PressKey(env, s, KeyOf(data))
  }

  /** The paste timer runs out: what has arrived is pasted. */
  function TimeOut(env: Env, s: Session): Session {
    if s.paste.active && s.paste.text != "" then
      Pasted(env, s, s.paste.text).(paste := Paste(false, "", s.paste.timer))
    else s
  }

  // ---------------------------------------------------------------------------
  // What every event keeps
  // ---------------------------------------------------------------------------

  lemma PastedKeeps(env: Env, s: Session, content: string)
    requires WellFormed(env, s)
    ensures WellFormed(env, Pasted(env, s, content))
  {
  }

  /** History position and selected suggestion stay in range, whatever comes in. */
  lemma PressKeeps(env: Env, s: Session, data: string)
    requires WellFormed(env, s)
    ensures WellFormed(env, Press(env, s, data).0) && WellFormed(env, TimeOut(env, s))
  {
    PastedKeeps(env, s, s.paste.text);
    if env.bracketed && PressPaste(env, s, data).Some? {
      PressPasteKeeps(env, s, data);
    } else {
      PressKeyKeeps(env, s, KeyOf(data));
    }
  }

  lemma PressPasteKeeps(env: Env, s: Session, data: string)
    requires WellFormed(env, s) && PressPaste(env, s, data).Some?
    ensures WellFormed(env, PressPaste(env, s, data).value)
  {
  }

  lemma PressKeyKeeps(env: Env, s: Session, key: Key)
    requires WellFormed(env, s)
    ensures WellFormed(env, PressKey(env, s, key).0)
  {
  }
}
