/** The raw input handler: one buffer with a cursor index, refined to the two-part editor. */
module RawInput {
  import opened Text
  import opened EditorModel

  class RawInputHandler {
    const env: Env
    var buffer: string
    var cursorPos: int
    var filteredSuggestions: seq<Suggestion>
    var selectedIndex: int
    var showingSuggestions: bool
    var inBracketedPaste: bool
    var pasteBuffer: string
    var pasteTimer: bool
    var historyIndex: int
    var savedBuffer: string

    /** The buffer cut at the cursor. */
    ghost function View(): Session
      reads this
      requires 0 <= cursorPos <= |buffer|
    {
      Session(Line(buffer[..cursorPos], buffer[cursorPos..]), historyIndex, savedBuffer,
              Menu(filteredSuggestions, selectedIndex, showingSuggestions),
              Paste(inBracketedPaste, pasteBuffer, pasteTimer))
    }

    ghost predicate Valid()
      reads this
    {
      0 <= cursorPos <= |buffer| && WellFormed(env, View())
    }

    constructor (env: Env)
      ensures Valid() && this.env == env
      ensures View() == Session(Line("", ""), -1, "", Menu([], 0, false), Paste(false, "", false))
    {
      this.env := env;
      buffer, cursorPos, filteredSuggestions, selectedIndex, showingSuggestions := "", 0, [], 0, false;
      inBracketedPaste, pasteBuffer, pasteTimer, historyIndex, savedBuffer := false, "", false, -1, "";
    }

    method UpdateSuggestions()
      requires 0 <= cursorPos <= |buffer|
      modifies this`filteredSuggestions, this`selectedIndex, this`showingSuggestions
      ensures View() == Edited(env, old(View()), old(View()).line)
    {
      assert View().line.Text() == buffer;
      var items := Suggest(env, buffer);
      if items.None? {
        showingSuggestions := false;
        filteredSuggestions := [];
      } else {
        filteredSuggestions := items.value;
        selectedIndex := 0;
        showingSuggestions := |items.value| > 0;
      }
    }

    /** Replaces the buffer and cursor and refreshes the suggestions. */
    method Rewrite(text: string, cursor: int)
      requires 0 <= cursorPos <= |buffer| && 0 <= cursor <= |text|
      modifies this`buffer, this`cursorPos, this`filteredSuggestions, this`selectedIndex, this`showingSuggestions
      ensures 0 <= cursorPos <= |buffer|
      ensures View() == Edited(env, old(View()), Line(text[..cursor], text[cursor..]))
    {
      buffer, cursorPos := text, cursor;
      UpdateSuggestions();
    }

    method Insert(text: string)
      requires 0 <= cursorPos <= |buffer|
      modifies this`buffer, this`cursorPos, this`filteredSuggestions, this`selectedIndex, this`showingSuggestions
      ensures 0 <= cursorPos <= |buffer|
      ensures View() == Inserted(env, old(View()), text)
    {
      if |text| > 0 {
        var whole := buffer[..cursorPos] + text + buffer[cursorPos..];
        assert whole[..cursorPos + |text|] == buffer[..cursorPos] + text;
        assert whole[cursorPos + |text|..] == buffer[cursorPos..];
        Rewrite(whole, cursorPos + |text|);
      }
    }

    method ProcessPaste(content: string)
      requires 0 <= cursorPos <= |buffer|
      modifies this`buffer, this`cursorPos, this`filteredSuggestions, this`selectedIndex, this`showingSuggestions
      ensures 0 <= cursorPos <= |buffer|
      ensures View() == Pasted(env, old(View()), content)
    {
      Insert(KeepPasted(content));
    }

    method ClearPaste()
      requires 0 <= cursorPos <= |buffer|
      modifies this`inBracketedPaste, this`pasteBuffer, this`pasteTimer
      ensures View() == StopPaste(old(View()))
    {
      pasteTimer := false;
      inBracketedPaste := false;
      pasteBuffer := "";
    }

    /** Shows a recalled text with the cursor at its end. */
    method Recall(entry: string)
      requires 0 <= cursorPos <= |buffer|
      modifies this`buffer, this`cursorPos, this`filteredSuggestions, this`selectedIndex, this`showingSuggestions
      ensures 0 <= cursorPos <= |buffer|
      ensures View() == Edited(env, old(View()), Line(entry, ""))
    {
      assert entry[..|entry|] == entry && entry[|entry|..] == "";
      Rewrite(entry, |entry|);
    }

    method ArrowUp()
      requires Valid()
      modifies this
      ensures Valid() && View() == UpStep(env, old(View()))
    {
      if showingSuggestions && |filteredSuggestions| > 0 {
        selectedIndex := if selectedIndex - 1 >= 0 then selectedIndex - 1 else 0;
      } else if |env.history| > 0 {
        OlderEntry();
      }
    }

    /** Shows the next older entry; on leaving the line its text is saved. */
    method OlderEntry()
      requires Valid() && !View().menu.Open() && env.history != []
      modifies this
      ensures Valid() && View() == UpStep(env, old(View()))
    {
      UpRecalls(env, View());
      StepBack();
      Recall(env.history[|env.history| - 1 - historyIndex]);
    }

    method StepBack()
      requires Valid() && env.history != []
      modifies this`savedBuffer, this`historyIndex
      ensures View() == old(View()).(
                nav := if old(historyIndex) + 1 < |env.history| then old(historyIndex) + 1 else |env.history| - 1,
                saved := if old(historyIndex) == -1 then old(View()).line.Text() else old(savedBuffer))
    {
      assert View().line.Text() == buffer;
      if historyIndex == -1 {
        savedBuffer := buffer;
      }
      historyIndex := if historyIndex + 1 < |env.history| then historyIndex + 1 else |env.history| - 1;
    }

    method ArrowDown()
      requires Valid()
      modifies this
      ensures Valid() && View() == DownStep(env, old(View()))
    {
      if showingSuggestions && |filteredSuggestions| > 0 {
        selectedIndex := if selectedIndex + 1 < |filteredSuggestions| then selectedIndex + 1
                         else |filteredSuggestions| - 1;
      } else if historyIndex > -1 {
        historyIndex := historyIndex - 1;
        var entry := if historyIndex == -1 then savedBuffer else env.history[|env.history| - 1 - historyIndex];
        Recall(entry);
      }
    }

    /** Takes over the selected suggestion. */
    method Accept()
      requires Valid() && showingSuggestions && |filteredSuggestions| > 0
      modifies this
      ensures Valid() && View() == Close(old(View()).(line := Accepted(old(View()))))
    {
      var selected := filteredSuggestions[selectedIndex];
      if selected.isFlag {
        var parts := SplitSpaces(buffer[..cursorPos]);
        parts := parts[|parts| - 1 := Split(selected.name, ' ')[0]];
        var beforeCursor := Join(parts, ' ') + " ";
        buffer := beforeCursor + buffer[cursorPos..];
        cursorPos := |beforeCursor|;
      } else {
        buffer := "/" + selected.name + " ";
        cursorPos := |buffer|;
      }
      showingSuggestions := false;
    }

    method Move(cursor: int)
      requires 0 <= cursorPos <= |buffer| && 0 <= cursor <= |buffer|
      modifies this`cursorPos
      ensures cursorPos == cursor && View() == old(View()).(line := Line(buffer[..cursor], buffer[cursor..]))
    {
      cursorPos := cursor;
    }

    /** Ctrl+W: the start of the word before the cursor. */
    method WordStart() returns (wordStart: int)
      requires 0 <= cursorPos <= |buffer|
      ensures 0 <= wordStart <= cursorPos && buffer[..wordStart] == DropWord(DropSpaces(buffer[..cursorPos]))
    {
      wordStart := cursorPos;
      while wordStart > 0 && buffer[wordStart - 1] == ' '
        invariant 0 <= wordStart <= cursorPos
        invariant DropSpaces(buffer[..wordStart]) == DropSpaces(buffer[..cursorPos])
      {
        assert buffer[..wordStart][..wordStart - 1] == buffer[..wordStart - 1];
        wordStart := wordStart - 1;
      }
      ghost var word := buffer[..wordStart];
      while wordStart > 0 && buffer[wordStart - 1] != ' '
        invariant 0 <= wordStart <= cursorPos
        invariant DropWord(buffer[..wordStart]) == DropWord(word)
      {
        assert buffer[..wordStart][..wordStart - 1] == buffer[..wordStart - 1];
        wordStart := wordStart - 1;
      }
    }

    /** Deletes the characters from `from` to `to`; the cursor ends at `cursor`. */
    method Cut(from: int, to: int, cursor: int)
      requires 0 <= cursorPos <= |buffer| && 0 <= from <= to <= |buffer| && cursor == from
      modifies this`buffer, this`cursorPos, this`filteredSuggestions, this`selectedIndex, this`showingSuggestions
      ensures 0 <= cursorPos <= |buffer|
      ensures View() == Edited(env, old(View()), Line(old(buffer)[..from], old(buffer)[to..]))
    {
      var text := buffer[..from] + buffer[to..];
      assert text[..from] == buffer[..from] && text[from..] == buffer[to..];
      Rewrite(text, cursor);
    }

    method SwapChars()
      requires Valid()
      modifies this`buffer
      ensures Valid() && View() == old(View()).(line := Line(Swapped(old(View()).line.before), old(View()).line.after))
    {
      if cursorPos >= 2 {
        ghost var before, after := buffer[..cursorPos], buffer[cursorPos..];
        buffer := buffer[cursorPos - 2 := buffer[cursorPos - 1]][cursorPos - 1 := buffer[cursorPos - 2]];
        assert buffer[..cursorPos] == Swapped(before);
        assert buffer[cursorPos..] == after;
      }
    }

    method EscapeKey()
      requires Valid()
      modifies this
      ensures Valid() && View() == PressKey(env, old(View()), Escape).0
    {
      ghost var s := View();
      if inBracketedPaste {
        pasteTimer := false;
        inBracketedPaste := false;
        PastedKeeps(env, View(), pasteBuffer);
        if |pasteBuffer| > 0 {
          ProcessPaste(pasteBuffer);
        }
        pasteBuffer := "";
      } else if showingSuggestions {
        showingSuggestions := false;
      }
    }

    method BackspaceKey()
      requires Valid()
      modifies this
      ensures Valid() && View() == PressKey(env, old(View()), Backspace).0
    {
      if cursorPos > 0 {
        assert buffer[..cursorPos][..cursorPos - 1] == buffer[..cursorPos - 1];
        Cut(cursorPos - 1, cursorPos, cursorPos - 1);
      }
    }

    method DeleteKey()
      requires Valid()
      modifies this
      ensures Valid() && View() == PressKey(env, old(View()), DeleteForward).0
    {
      if cursorPos < |buffer| {
        assert buffer[cursorPos..][1..] == buffer[cursorPos + 1..];
        Cut(cursorPos, cursorPos + 1, cursorPos);
      }
    }

    method KillToEndKey()
      requires Valid()
      modifies this
      ensures Valid() && View() == PressKey(env, old(View()), KillToEnd).0
    {
      assert buffer[|buffer|..] == "";
      Cut(cursorPos, |buffer|, cursorPos);
    }

    method KillToStartKey()
      requires Valid()
      modifies this
      ensures Valid() && View() == PressKey(env, old(View()), KillToStart).0
    {
      assert buffer[..0] == "";
      Cut(0, cursorPos, 0);
    }

    method KillWordKey()
      requires Valid()
      modifies this
      ensures Valid() && View() == PressKey(env, old(View()), KillWord).0
    {
      var wordStart := WordStart();
      Cut(wordStart, cursorPos, wordStart);
    }

    method MoveKey(key: Key)
      requires Valid()
      requires key in {Left, Right, Home, End}
      modifies this`cursorPos
      ensures Valid() && View() == PressKey(env, old(View()), key).0
    {
      match key {
        case Left => if cursorPos > 0 { Move(cursorPos - 1); }
        case Right => if cursorPos < |buffer| { Move(cursorPos + 1); }
        case Home => Move(0);
        case End => Move(|buffer|);
      }
    }

    method AcceptOrSubmit(enter: bool) returns (out: Outcome)
      requires Valid()
      modifies this
      ensures Valid() && (View(), out) == PressKey(env, old(View()), if enter then Enter else Tab)
    {
      assert View().line.Text() == buffer;
      if showingSuggestions && |filteredSuggestions| > 0 {
        Accept();
        assert View().line.Text() == buffer;
        out := if enter then Submit(buffer) else Continue;
      } else {
        out := if enter then Submit(buffer) else Continue;
      }
    }

    method PasteChunk(data: string) returns (handled: bool)
      requires Valid()
      modifies this
      ensures Valid()
      ensures handled <==> PressPaste(env, old(View()), data).Some?
      ensures View() == if handled then PressPaste(env, old(View()), data).value else old(View())
    {
      var endIdx := IndexOf(data, PASTE_END);
      ghost var s := View();
      if StartsWith(data, PASTE_START) {
        inBracketedPaste := true;
        pasteBuffer := "";
        if endIdx != -1 {
          inBracketedPaste := false;
          PastedKeeps(env, View(), if endIdx >= 6 then data[6..endIdx] else "");
          ProcessPaste(if endIdx >= 6 then data[6..endIdx] else "");
          return true;
        }
        pasteTimer := true;
        pasteBuffer := pasteBuffer + data[6..];
        return true;
      }
      if inBracketedPaste {
        if endIdx != -1 {
          pasteTimer := false;
          inBracketedPaste := false;
          var content := pasteBuffer + data[..endIdx];
          pasteBuffer := "";
          PastedKeeps(env, View(), content);
          ProcessPaste(content);
        } else {
          pasteBuffer := pasteBuffer + data;
        }
        return true;
      }
      handled := endIdx != -1;
    }

    /** Every event does to the buffer and cursor what it does to the two-part editor. */
    method HandleInput(data: string) returns (out: Outcome)
      requires Valid()
      modifies this
      ensures Valid() && (View(), out) == Press(env, old(View()), data)
    {
      PressKeeps(env, View(), data);
      if env.bracketed {
        var handled := PasteChunk(data);
        if handled {
          return Continue;
        }
      }
      out := HandleKey(KeyOf(data));
    }

    method HandleKey(key: Key) returns (out: Outcome)
      requires Valid()
      modifies this
      ensures Valid() && (View(), out) == PressKey(env, old(View()), key)
    {
      out := Continue;
      match key {
        case CtrlC =>
          ClearPaste();
          out := Cancel;
        case CtrlD =>
          ClearPaste();
          out := Exit;
        case Escape => EscapeKey();
        case Up => ArrowUp();
        case Down => ArrowDown();
        case Tab => out := AcceptOrSubmit(false);
        case Enter => out := AcceptOrSubmit(true);
        case ClearScreen =>
        case Transpose => SwapChars();
        case Input(data) => TypeText(data);
        case Left | Right | Home | End => MoveKey(key);
        case Backspace => BackspaceKey();
        case DeleteForward => DeleteKey();
        case KillToEnd => KillToEndKey();
        case KillToStart => KillToStartKey();
        case KillWord => KillWordKey();
      }
    }

    method TypeText(data: string)
      requires Valid()
      modifies this
      ensures Valid() && View() == PressKey(env, old(View()), Input(data)).0
    {
      PastedKeeps(env, View(), data);
      if |data| > 10 && !env.bracketed {
        ProcessPaste(data);
      } else {
        Insert(KeepPrintable(data));
      }
    }

    /** The callback of the paste timer. */
    method PasteTimedOut()
      requires Valid()
      modifies this
      ensures Valid() && View() == TimeOut(env, old(View()))
    {
      if inBracketedPaste && |pasteBuffer| > 0 {
        inBracketedPaste := false;
        PastedKeeps(env, View(), pasteBuffer);
        ProcessPaste(pasteBuffer);
        pasteBuffer := "";
      }
    }
  }
}
