/** What each key does, stated on the bytes it sends and the text it leaves. */
module EditorKeys {
  import opened Text
  import opened EditorModel

  /** No paste is being collected. */
  predicate Ready(env: Env, s: Session) {
    WellFormed(env, s) && !s.paste.active
  }

  /** Data shorter than a paste marker belongs to no paste. */
  lemma ShortIsKey(env: Env, s: Session, data: string)
    requires Ready(env, s) && |data| < 6
    ensures Press(env, s, data) == PressKey(env, s, KeyOf(data))
  {
    assert |PASTE_START| == 6 && |PASTE_END| == 6;
  }

  /** The escape sequences of three characters, ... */
  lemma Sequences()
    ensures KeyOf([ESC] + "[A") == Up && KeyOf([ESC] + "[B") == Down
    ensures KeyOf([ESC] + "[C") == Right && KeyOf([ESC] + "[D") == Left
    ensures KeyOf([ESC] + "[H") == Home && KeyOf([ESC] + "[F") == End
  {
    forall c: char
      ensures |[ESC] + "[" + [c]| == 3 && ([ESC] + "[" + [c])[2] == c
    {
    }
    assert [ESC] + "[A" == [ESC] + "[" + ['A'] && [ESC] + "[B" == [ESC] + "[" + ['B'];
    assert [ESC] + "[C" == [ESC] + "[" + ['C'] && [ESC] + "[D" == [ESC] + "[" + ['D'];
    assert [ESC] + "[H" == [ESC] + "[" + ['H'] && [ESC] + "[F" == [ESC] + "[" + ['F'];
  }

  /** ... and those of four. */
  lemma TildeSequences()
    ensures KeyOf([ESC] + "[1~") == KeyOf([ESC] + "[7~") == Home
    ensures KeyOf([ESC] + "[4~") == KeyOf([ESC] + "[8~") == End
    ensures KeyOf([ESC] + "[3~") == DeleteForward
  {
    forall c: char
      ensures |[ESC] + "[" + [c] + "~"| == 4 && ([ESC] + "[" + [c] + "~")[2] == c
    {
    }
    assert [ESC] + "[1~" == [ESC] + "[" + ['1'] + "~" && [ESC] + "[7~" == [ESC] + "[" + ['7'] + "~";
    assert [ESC] + "[4~" == [ESC] + "[" + ['4'] + "~" && [ESC] + "[8~" == [ESC] + "[" + ['8'] + "~";
    assert [ESC] + "[3~" == [ESC] + "[" + ['3'] + "~";
  }

  /** The session after an edit of the line: the menu belongs to the new text, nothing else changes. */
  predicate Edits(env: Env, s: Session, s': Session, before: string, after: string) {
    s' == s.(line := Line(before, after), menu := Refreshed(env, s.menu, before + after))
  }

  /** Only the cursor moved. */
  predicate MovesTo(s: Session, s': Session, before: string, after: string) {
    s' == s.(line := Line(before, after)) && before + after == s.line.Text()
  }

  // ---------------------------------------------------------------------------
  // Deleting
  // ---------------------------------------------------------------------------

  /** Ctrl+K keeps what is before the cursor, Ctrl+U what is behind it. */
  lemma KillKeys(env: Env, s: Session)
    requires Ready(env, s)
    ensures Press(env, s, "\U{0B}").1 == Continue && Edits(env, s, Press(env, s, "\U{0B}").0, s.line.before, "")
    ensures Press(env, s, "\U{15}").1 == Continue && Edits(env, s, Press(env, s, "\U{15}").0, "", s.line.after)
  {
    ShortIsKey(env, s, "\U{0B}");
    ShortIsKey(env, s, "\U{15}");
  }

  /** Both backspaces delete the character before the cursor, Delete the one behind it. */
  lemma DeleteKeys(env: Env, s: Session, data: string)
    requires Ready(env, s) && data in {"\U{7F}", "\U{08}", [ESC] + "[3~"}
    ensures Press(env, s, data).1 == Continue
    ensures var b, a, s' := s.line.before, s.line.after, Press(env, s, data).0;
            if data == [ESC] + "[3~" then
              if a == "" then s' == s else Edits(env, s, s', b, a[1..])
            else
              if b == "" then s' == s else Edits(env, s, s', b[..|b| - 1], a)
  {
    TildeSequences();
    ShortIsKey(env, s, data);
  }

  lemma {:induction false} SpacesDropped(s: string)
    ensures DropSpaces(s) <= s && (DropSpaces(s) == "" || DropSpaces(s)[|DropSpaces(s)| - 1] != ' ')
    ensures forall i | |DropSpaces(s)| <= i < |s| :: s[i] == ' '
  {
    if s == "" || s[|s| - 1] != ' ' {
    } else {
      SpacesDropped(s[..|s| - 1]);
    }
  }

  lemma {:induction false} WordDropped(s: string)
    ensures DropWord(s) <= s && (DropWord(s) == "" || DropWord(s)[|DropWord(s)| - 1] == ' ')
    ensures forall i | |DropWord(s)| <= i < |s| :: s[i] != ' '
  {
    if s == "" || s[|s| - 1] == ' ' {
    } else {
      WordDropped(s[..|s| - 1]);
    }
  }

  /** `before` is `kept`, then one word, then spaces; without a word nothing is kept. */
  predicate LastWordCut(before: string, kept: string, word: string, spaces: string) {
    && before == kept + word + spaces
    && (kept == "" || kept[|kept| - 1] == ' ')
    && Lacks(word, ' ') && (forall i | 0 <= i < |spaces| :: spaces[i] == ' ')
    && (word == "" ==> kept == "")
  }

  /** Ctrl+W cuts the last word before the cursor and the spaces behind it. */
  lemma KillWordKey(env: Env, s: Session) returns (word: string, spaces: string)
    requires Ready(env, s)
    ensures var (s', out) := Press(env, s, "\U{17}");
            && out == Continue && Edits(env, s, s', s'.line.before, s.line.after)
            && LastWordCut(s.line.before, s'.line.before, word, spaces)
  {
    ShortIsKey(env, s, "\U{17}");
    word, spaces := CutWord(s.line.before);
  }

  lemma CutWord(before: string) returns (word: string, spaces: string)
    ensures LastWordCut(before, DropWord(DropSpaces(before)), word, spaces)
  {
    var trimmed := DropSpaces(before);
    var kept := DropWord(trimmed);
    SpacesDropped(before);
    WordDropped(trimmed);
    word, spaces := trimmed[|kept|..], before[|trimmed|..];
    assert trimmed == kept + word && before == trimmed + spaces;
  }

  lemma CutChars(before: string, kept: string, word: string, spaces: string)
    requires LastWordCut(before, kept, word, spaces)
    ensures |before| == |kept| + |word| + |spaces|
    ensures kept != "" ==> before[|kept| - 1] == ' '
    ensures forall i | |kept| <= i < |kept| + |word| :: before[i] != ' '
    ensures forall i | |kept| + |word| <= i < |before| :: before[i] == ' '
  {
    assert kept != "" ==> before[|kept| - 1] == kept[|kept| - 1];
    assert forall i | |kept| <= i < |kept| + |word| :: before[i] == word[i - |kept|];
    assert forall i | |kept| + |word| <= i < |before| :: before[i] == spaces[i - |kept| - |word|];
  }

  lemma WordEnds(before: string, kept: string, word: string, spaces: string,
                 kept': string, word': string, spaces': string)
    requires LastWordCut(before, kept, word, spaces) && LastWordCut(before, kept', word', spaces')
    ensures |kept'| + |word'| <= |kept| + |word|
  {
    CutChars(before, kept, word, spaces);
    CutChars(before, kept', word', spaces');
    assert word' != "" ==> before[|kept'| + |word'| - 1] != ' ';
  }

  lemma WordStarts(before: string, kept: string, word: string, spaces: string,
                   kept': string, word': string, spaces': string)
    requires LastWordCut(before, kept, word, spaces) && LastWordCut(before, kept', word', spaces')
    requires |kept'| + |word'| == |kept| + |word|
    ensures |kept'| <= |kept|
  {
    CutChars(before, kept, word, spaces);
    CutChars(before, kept', word', spaces');
  }

  /** There is only one such cut. */
  lemma OneCut(before: string, kept: string, word: string, spaces: string,
               kept': string, word': string, spaces': string)
    requires LastWordCut(before, kept, word, spaces) && LastWordCut(before, kept', word', spaces')
    ensures kept == kept' && word == word'
  {
    WordEnds(before, kept, word, spaces, kept', word', spaces');
    WordEnds(before, kept', word', spaces', kept, word, spaces);
    WordStarts(before, kept, word, spaces, kept', word', spaces');
    WordStarts(before, kept', word', spaces', kept, word, spaces);
    assert kept == before[..|kept|] && word == before[|kept|..|kept| + |word|];
    assert kept' == before[..|kept|] && word' == before[|kept|..|kept| + |word|];
  }

  // ---------------------------------------------------------------------------
  // Typing and moving
  // ---------------------------------------------------------------------------

  predicate AllPrintable(data: string) {
    forall i | 0 <= i < |data| :: ' ' <= data[i] <= '~'
  }

  lemma {:induction false} PrintableKept(data: string)
    requires AllPrintable(data)
    ensures KeepPrintable(data) == data && KeepPasted(data) == data
  {
    if data == "" {
    } else {
      PrintableKept(data[1..]);
    }
  }

  lemma PrintableIsInput(data: string)
    requires AllPrintable(data) && data != ""
    ensures KeyOf(data) == Input(data) && !StartsWith(data, PASTE_START) && !Includes(data, PASTE_END)
  {
    assert data[0] != ESC && data[0] != '\t';
    forall i
      ensures !OccursAt(data, PASTE_END, i)
    {
      assert 0 <= i && i + 6 <= |data| ==> data[i..i + 6][0] == data[i];
      assert PASTE_END[0] == ESC;
    }
  }

  /** Printable characters, one or many, are inserted at the cursor. */
  lemma TypesText(env: Env, s: Session, data: string)
    requires Ready(env, s) && AllPrintable(data) && data != ""
    ensures Press(env, s, data).1 == Continue
    ensures Edits(env, s, Press(env, s, data).0, s.line.before + data, s.line.after)
  {
    PrintableIsInput(data);
    PrintableKept(data);
  }

  /** Backspace takes back what was typed. */
  lemma BackspaceUndoes(env: Env, s: Session, c: char, data: string)
    requires Ready(env, s) && ' ' <= c <= '~' && data in {"\U{7F}", "\U{08}"}
    ensures Ready(env, Press(env, s, [c]).0)
    ensures Press(env, Press(env, s, [c]).0, data).0.line == s.line
  {
    TypesText(env, s, [c]);
    DeleteKeys(env, Press(env, s, [c]).0, data);
    assert (s.line.before + [c])[..|s.line.before|] == s.line.before;
  }

  /** Left and Right move the cursor by one character and undo each other. */
  lemma SideKeys(env: Env, s: Session)
    requires Ready(env, s)
    ensures var left, right, b, a := [ESC] + "[D", [ESC] + "[C", s.line.before, s.line.after;
            && Press(env, s, left).1 == Continue && Press(env, s, right).1 == Continue
            && Ready(env, Press(env, s, left).0) && Ready(env, Press(env, s, right).0)
            && (if b == "" then Press(env, s, left).0 == s
                else MovesTo(s, Press(env, s, left).0, b[..|b| - 1], [b[|b| - 1]] + a)
                     && Press(env, Press(env, s, left).0, right).0 == s)
            && (if a == "" then Press(env, s, right).0 == s
                else MovesTo(s, Press(env, s, right).0, b + [a[0]], a[1..])
                     && Press(env, Press(env, s, right).0, left).0 == s)
  {
    LeftKey(env, s);
    RightKey(env, s);
    if s.line.before != "" {
      RightKey(env, Press(env, s, [ESC] + "[D").0);
    }
    if s.line.after != "" {
      LeftKey(env, Press(env, s, [ESC] + "[C").0);
    }
  }

  lemma LeftKey(env: Env, s: Session)
    requires Ready(env, s)
    ensures var b, a, left := s.line.before, s.line.after, [ESC] + "[D";
            && Press(env, s, left).1 == Continue && Ready(env, Press(env, s, left).0)
            && if b == "" then Press(env, s, left).0 == s
               else
                 && MovesTo(s, Press(env, s, left).0, b[..|b| - 1], [b[|b| - 1]] + a)
                 && b[..|b| - 1] + [b[|b| - 1]] == b
  {
    Sequences();
    ShortIsKey(env, s, [ESC] + "[D");
  }

  lemma RightKey(env: Env, s: Session)
    requires Ready(env, s)
    ensures var b, a, right := s.line.before, s.line.after, [ESC] + "[C";
            && Press(env, s, right).1 == Continue && Ready(env, Press(env, s, right).0)
            && if a == "" then Press(env, s, right).0 == s
               else
                 && MovesTo(s, Press(env, s, right).0, b + [a[0]], a[1..])
                 && [a[0]] + a[1..] == a
  {
    Sequences();
    ShortIsKey(env, s, [ESC] + "[C");
  }

  /** Left and then Delete is Backspace. */
  lemma LeftDeleteIsBackspace(env: Env, s: Session)
    requires Ready(env, s) && s.line.before != ""
    ensures Ready(env, Press(env, s, [ESC] + "[D").0)
    ensures Press(env, Press(env, s, [ESC] + "[D").0, [ESC] + "[3~").0 == Press(env, s, "\U{7F}").0
  {
    SideKeys(env, s);
    DeleteKeys(env, Press(env, s, [ESC] + "[D").0, [ESC] + "[3~");
    DeleteKeys(env, s, "\U{7F}");
  }

  /** Every variant of Home and End moves the cursor to an end of the line. */
  lemma HomeEndKeys(env: Env, s: Session, data: string)
    requires Ready(env, s)
    ensures data in {[ESC] + "[H", [ESC] + "[1~", [ESC] + "[7~", "\U{01}"} ==>
              Press(env, s, data).1 == Continue && MovesTo(s, Press(env, s, data).0, "", s.line.Text())
    ensures data in {[ESC] + "[F", [ESC] + "[4~", [ESC] + "[8~", "\U{05}"} ==>
              Press(env, s, data).1 == Continue && MovesTo(s, Press(env, s, data).0, s.line.Text(), "")
  {
    Sequences();
    TildeSequences();
    if |data| < 6 {
      ShortIsKey(env, s, data);
    }
  }

  /** Ctrl+T swaps the two characters before the cursor; the menu stays as it was. */
  lemma TransposeKey(env: Env, s: Session)
    requires Ready(env, s)
    ensures var b, (s', out) := s.line.before, Press(env, s, "\U{14}");
            && out == Continue
            && s' == s.(line := s'.line) && s'.line.after == s.line.after && |s'.line.before| == |b|
            && (forall i | 0 <= i < |b| ::
                  s'.line.before[i] ==
                  if |b| < 2 || i < |b| - 2 then b[i] else if i == |b| - 2 then b[i + 1] else b[i - 1])
  {
    ShortIsKey(env, s, "\U{14}");
  }

  /** Ctrl+L redraws only; Escape closes a menu and changes nothing else. */
  lemma QuietKeys(env: Env, s: Session)
    requires Ready(env, s)
    ensures Press(env, s, "\U{0C}") == (s, Continue)
    ensures Press(env, s, [ESC]) == (s.(menu := s.menu.(showing := false)), Continue)
  {
    ShortIsKey(env, s, "\U{0C}");
    ShortIsKey(env, s, [ESC]);
  }

  // ---------------------------------------------------------------------------
  // Ending the line
  // ---------------------------------------------------------------------------

  /** Ctrl+C cancels and Ctrl+D leaves the program; the line is not touched. */
  lemma StopKeys(env: Env, s: Session)
    requires Ready(env, s)
    ensures Press(env, s, "\U{03}").1 == Cancel && Press(env, s, "\U{03}").0 == s.(paste := Paste(false, "", false))
    ensures Press(env, s, "\U{04}").1 == Exit && Press(env, s, "\U{04}").0 == s.(paste := Paste(false, "", false))
  {
    ShortIsKey(env, s, "\U{03}");
    ShortIsKey(env, s, "\U{04}");
  }

  /** Without a menu Enter submits the text and Tab does nothing. */
  lemma EnterSubmits(env: Env, s: Session)
    requires Ready(env, s) && !(s.menu.showing && s.menu.items != [])
    ensures Press(env, s, "\r") == Press(env, s, "\n") == (s, Submit(s.line.before + s.line.after))
    ensures Press(env, s, "\t") == (s, Continue)
  {
    ShortIsKey(env, s, "\r");
    ShortIsKey(env, s, "\n");
    ShortIsKey(env, s, "\t");
  }

  /** Tab takes over the selected suggestion; Enter does the same and submits the text that results. */
  lemma EnterAccepts(env: Env, s: Session)
    requires Ready(env, s) && s.menu.showing && s.menu.items != []
    ensures var s' := Press(env, s, "\t").0;
            && s' == s.(line := s'.line, menu := s.menu.(showing := false)) && Press(env, s, "\t").1 == Continue
            && Press(env, s, "\r") == Press(env, s, "\n") == (s', Submit(s'.line.before + s'.line.after))
  {
    ShortIsKey(env, s, "\r");
    ShortIsKey(env, s, "\n");
    ShortIsKey(env, s, "\t");
  }

  /** A command replaces the whole line. */
  lemma CommandAccepted(env: Env, s: Session)
    requires Ready(env, s) && s.menu.showing && s.menu.items != [] && !s.menu.items[s.menu.selected].isFlag
    ensures Press(env, s, "\t").0.line == Line("/" + s.menu.items[s.menu.selected].name + " ", "")
  {
    ShortIsKey(env, s, "\t");
  }

  /** No white space in any of the words. */
  predicate Words(words: seq<string>) {
    forall i, k | 0 <= i < |words| && 0 <= k < |words[i]| :: !IsSpace(words[i][k])
  }

  lemma {:induction false} SplitOneWord(w: string)
    requires forall k | 0 <= k < |w| :: !IsSpace(w[k])
    ensures SplitSpaces(w) == [w]
  {
    if w == "" {
    } else {
      SplitOneWord(w[1..]);
      assert [w[0]] + w[1..] == w;
    }
  }

  lemma {:induction false} SplitFirstWord(w: string, rest: string)
    requires forall k | 0 <= k < |w| :: !IsSpace(w[k])
    requires rest == "" || !IsSpace(rest[0])
    ensures SplitSpaces(w + " " + rest) == [w] + SplitSpaces(rest)
  {
    var s := w + " " + rest;
    if w == "" {
      assert s[0] == ' ' && s[1..] == rest;
      TrimStartKeeps(rest);
    } else {
      assert s[1..] == w[1..] + " " + rest;
      SplitFirstWord(w[1..], rest);
      assert [w[0]] + w[1..] == w;
    }
  }

  /** Words joined by single spaces are split again; only the last one may be empty. */
  lemma {:induction false} SplitJoined(words: seq<string>)
    requires words != [] && Words(words) && forall i | 1 <= i < |words| - 1 :: words[i] != ""
    ensures SplitSpaces(Join(words, ' ')) == words
  {
    if |words| == 1 {
      SplitOneWord(words[0]);
    } else {
      var rest := Join(words[1..], ' ');
      assert |words| > 2 ==> words[1..][0] != "";
      assert |words| == 2 ==> rest == words[1];
      assert rest == "" || !IsSpace(rest[0]);
      assert Join(words, ' ') == words[0] + " " + rest;
      SplitFirstWord(words[0], rest);
      SplitJoined(words[1..]);
    }
  }

  /** A flag replaces the last word before the cursor; its value placeholder is left out. */
  lemma FlagAccepted(env: Env, s: Session, words: seq<string>, partial: string, flag: string, hint: string)
    requires Ready(env, s) && s.menu.showing && s.menu.items != []
    requires Words(words + [partial]) && forall i | 1 <= i < |words| :: words[i] != ""
    requires s.line.before == Join(words + [partial], ' ')
    requires Lacks(flag, ' ') && (hint == "" || hint[0] == ' ')
    requires s.menu.items[s.menu.selected] == Suggestion(flag + hint, true)
    ensures Press(env, s, "\t").0.line == Line(Join(words + [flag], ' ') + " ", s.line.after)
  {
    TabAccepts(env, s);
    PartReplaced(words, partial, flag);
    FlagName(flag, hint);
    AcceptedFlag(s, flag, hint, words + [flag]);
  }

  lemma TabAccepts(env: Env, s: Session)
    requires Ready(env, s) && s.menu.showing && s.menu.items != []
    ensures Press(env, s, "\t").0.line == Accepted(s)
  {
    ShortIsKey(env, s, "\t");
  }

  lemma AcceptedFlag(s: Session, flag: string, hint: string, parts: seq<string>)
    requires s.menu.Open() && 0 <= s.menu.selected < |s.menu.items|
    requires s.menu.items[s.menu.selected] == Suggestion(flag + hint, true) && Split(flag + hint, ' ')[0] == flag
    requires var was := SplitSpaces(s.line.before); was[|was| - 1 := flag] == parts
    ensures Accepted(s) == Line(Join(parts, ' ') + " ", s.line.after)
  {
  }

  lemma PartReplaced(words: seq<string>, partial: string, flag: string)
    requires Words(words + [partial]) && forall i | 1 <= i < |words| :: words[i] != ""
    ensures var parts := SplitSpaces(Join(words + [partial], ' ')); parts[|parts| - 1 := flag] == words + [flag]
  {
    SplitJoined(words + [partial]);
    assert (words + [partial])[|words| := flag] == words + [flag];
  }

  lemma FlagName(flag: string, hint: string)
    requires Lacks(flag, ' ') && (hint == "" || hint[0] == ' ')
    ensures Split(flag + hint, ' ')[0] == flag
  {
    if hint == "" {
      SplitWhole(flag, ' ');
      assert flag + hint == flag;
    } else {
      SplitPrefix(flag, hint[1..], ' ');
      assert flag + hint == flag + [' '] + hint[1..];
    }
  }

  // ---------------------------------------------------------------------------
  // History
  // ---------------------------------------------------------------------------

  /** Up shows the next older entry, the newest first, and keeps the text that is left. */
  lemma UpKey(env: Env, s: Session)
    requires Ready(env, s) && !(s.menu.showing && s.menu.items != [])
    ensures var (s', out) := Press(env, s, [ESC] + "[A");
            && out == Continue
            && if env.history == [] then s' == s
               else
                 && s'.nav == (if s.nav == |env.history| - 1 then s.nav else s.nav + 1)
                 && s'.saved == (if s.nav == -1 then s.line.before + s.line.after else s.saved)
                 && s'.line == Line(env.history[|env.history| - 1 - s'.nav], "")
                 && s'.menu == Refreshed(env, s.menu, s'.line.before) && s'.paste == s.paste
  {
    Sequences();
    ShortIsKey(env, s, [ESC] + "[A");
    if env.history != [] {
      var entry := Press(env, s, [ESC] + "[A").0.line.before;
      assert entry + "" == entry;
    }
  }

  /** Down shows the next newer entry, and at last the text that was kept. */
  lemma DownKey(env: Env, s: Session)
    requires Ready(env, s) && !(s.menu.showing && s.menu.items != [])
    ensures var (s', out) := Press(env, s, [ESC] + "[B");
            && out == Continue
            && if s.nav == -1 then s' == s
               else
                 && s'.nav == s.nav - 1 && s'.saved == s.saved
                 && s'.line == Line(if s'.nav == -1 then s.saved else env.history[|env.history| - 1 - s'.nav], "")
                 && s'.menu == Refreshed(env, s.menu, s'.line.before) && s'.paste == s.paste
  {
    Sequences();
    ShortIsKey(env, s, [ESC] + "[B");
    var text := Press(env, s, [ESC] + "[B").0.line.before;
    assert text + "" == text;
  }

  /** In an open menu the two keys move the selection by one and stop at its ends. */
  lemma MenuKeys(env: Env, s: Session)
    requires Ready(env, s) && s.menu.showing && s.menu.items != []
    ensures var i, last := s.menu.selected, |s.menu.items| - 1;
            var up, down := if i == 0 then i else i - 1, if i == last then i else i + 1;
            && Press(env, s, [ESC] + "[A") == (s.(menu := s.menu.(selected := up)), Continue)
            && Press(env, s, [ESC] + "[B") == (s.(menu := s.menu.(selected := down)), Continue)
  {
    Sequences();
    ShortIsKey(env, s, [ESC] + "[A");
    ShortIsKey(env, s, [ESC] + "[B");
  }

  // ---------------------------------------------------------------------------
  // Suggestions
  // ---------------------------------------------------------------------------

  /** A menu with these items, the first one selected, shown when there are any. */
  function Listing(items: seq<Suggestion>): Menu {
    Menu(items, 0, items != [])
  }

  /** Text that does not start with a slash has no menu. */
  lemma PlainHasNoMenu(env: Env, menu: Menu, text: string)
    requires text == "" || text[0] != '/'
    ensures Refreshed(env, menu, text) == Menu([], menu.selected, false)
  {
    assert !StartsWith(text, "/");
  }

  /** A slash and one word: the commands it begins, in any case, in the order of the list. */
  lemma CommandMenu(env: Env, menu: Menu, word: string)
    requires Words([word])
    ensures Refreshed(env, menu, "/" + word) == Listing(MatchingCommands(env.commands, Lower(word)))
  {
    assert ("/" + word)[1..] == word;
    assert forall k | 0 <= k < |word| :: !IsSpace([word][0][k]);
    SplitOneWord(word);
    assert StartsWith("/" + word, "/");
  }

  lemma {:induction false} CommandsMatch(a: seq<string>, b: seq<string>, partial: string)
    ensures MatchingCommands(a + b, partial) == MatchingCommands(a, partial) + MatchingCommands(b, partial)
  {
    if a == [] {
      assert a + b == b;
    } else {
      assert (a + b)[0] == a[0] && (a + b)[1..] == a[1..] + b;
      CommandsMatch(a[1..], b, partial);
      assert MatchingCommands(a, partial) == MatchingCommands([a[0]], partial) + MatchingCommands(a[1..], partial) by {
        CommandMatches(a[0], partial);
      }
    }
  }

  lemma CommandMatches(c: string, partial: string)
    ensures MatchingCommands([c], partial) == if partial <= Lower(c) then [Suggestion(c, false)] else []
  {
    assert [c][1..] == [];
    assert MatchingCommands([c][1..], partial) == [];
  }

  /** A command and, last, a word with a dash: the flags of that command the word begins. */
  lemma FlagMenu(env: Env, menu: Menu, command: string, words: seq<string>, last: string)
    requires Words([command] + words + [last]) && forall i | 0 <= i < |words| :: words[i] != ""
    ensures var flags := if Lower(command) in env.flags then env.flags[Lower(command)] else [];
            Refreshed(env, menu, "/" + Join([command] + words + [last], ' ')) ==
            if last == "" || last[0] != '-' then Menu([], menu.selected, false)
            else Listing(MatchingFlags(flags, Lower(last)))
  {
    var parts := [command] + words + [last];
    var text := "/" + Join(parts, ' ');
    assert text[1..] == Join(parts, ' ') && StartsWith(text, "/");
    SplitJoined(parts);
    assert parts[|parts| - 1] == last && parts[0] == command;
    assert StartsWith(last, "-") <==> last != "" && last[0] == '-';
  }

  lemma {:induction false} FlagsMatch(a: seq<Flag>, b: seq<Flag>, partial: string)
    ensures MatchingFlags(a + b, partial) == MatchingFlags(a, partial) + MatchingFlags(b, partial)
  {
    if a == [] {
      assert a + b == b;
    } else {
      assert (a + b)[1..] == a[1..] + b;
      FlagsMatch(a[1..], b, partial);
    }
  }

  /** A flag that takes a value shows its placeholder. */
  lemma FlagMatches(f: Flag, partial: string)
    ensures MatchingFlags([f], partial) ==
            if !(partial <= Lower(f.name)) then []
            else if !f.hasValue then [Suggestion(f.name, true)]
            else [Suggestion(f.name + " " + (if f.placeholder == "" then "<value>" else f.placeholder), true)]
  {
    assert [f][1..] == [];
    assert MatchingFlags([f][1..], partial) == [];
  }

  // ---------------------------------------------------------------------------
  // What is filtered out
  // ---------------------------------------------------------------------------

  /** Typed data loses everything but printable characters, pasted data keeps tabs as well: character by character. */
  lemma FilterChars(c: char)
    ensures KeepPrintable([c]) == if ' ' <= c <= '~' then [c] else ""
    ensures KeepPasted([c]) == if ' ' <= c <= '~' || c == '\t' then [c] else ""
  {
    assert [c][1..] == "";
    assert KeepPrintable([c][1..]) == KeepPasted([c][1..]) == "";
  }

  lemma {:induction false} PrintableSplit(a: string, b: string)
    ensures KeepPrintable(a + b) == KeepPrintable(a) + KeepPrintable(b)
  {
    if a == "" {
      assert a + b == b;
    } else {
      assert (a + b)[0] == a[0] && (a + b)[1..] == a[1..] + b;
      PrintableSplit(a[1..], b);
      Associates(if Printable(a[0]) then [a[0]] else "", KeepPrintable(a[1..]), KeepPrintable(b));
    }
  }

  lemma {:induction false} PastedSplit(a: string, b: string)
    ensures KeepPasted(a + b) == KeepPasted(a) + KeepPasted(b)
  {
    if a == "" {
      assert a + b == b;
    } else {
      assert (a + b)[0] == a[0] && (a + b)[1..] == a[1..] + b;
      PastedSplit(a[1..], b);
      Associates(if Printable(a[0]) || a[0] == '\t' then [a[0]] else "", KeepPasted(a[1..]), KeepPasted(b));
    }
  }

  /**
   Data longer than any key inserts what passes the filter: as a paste where the terminal does not mark pastes and
   more than ten characters arrive at once, as typed text otherwise.
   */
  lemma LongData(env: Env, s: Session, data: string)
    requires Ready(env, s) && |data| > 4
    requires env.bracketed ==> !StartsWith(data, PASTE_START) && !Includes(data, PASTE_END)
    ensures var kept := if |data| > 10 && !env.bracketed then KeepPasted(data) else KeepPrintable(data);
            var (s', out) := Press(env, s, data);
            out == Continue && if kept == "" then s' == s else Edits(env, s, s', s.line.before + kept, s.line.after)
  {
    LongIsInput(data);
    UnmarkedIsKey(env, s, data);
    InputTypes(env, s, data);
    InsertedEdits(env, s, if |data| > 10 && !env.bracketed then KeepPasted(data) else KeepPrintable(data));
  }

  lemma UnmarkedIsKey(env: Env, s: Session, data: string)
    requires Ready(env, s)
    requires env.bracketed ==> !StartsWith(data, PASTE_START) && !Includes(data, PASTE_END)
    ensures Press(env, s, data) == PressKey(env, s, KeyOf(data))
  {
  }

  lemma InputTypes(env: Env, s: Session, data: string)
    requires Ready(env, s)
    ensures PressKey(env, s, Input(data)) == (Typed(env, s, data), Continue)
  {
  }

  lemma InsertedEdits(env: Env, s: Session, kept: string)
    ensures var s' := Inserted(env, s, kept);
            if kept == "" then s' == s else Edits(env, s, s', s.line.before + kept, s.line.after)
  {
  }

  lemma LongIsInput(data: string)
    requires |data| > 4
    ensures KeyOf(data) == Input(data)
  {
    forall key: string | |key| <= 3
      ensures data != [ESC] + key
    {
      assert |[ESC] + key| <= 4;
    }
  }

  /** An end marker that closes nothing is dropped with all that came with it. */
  lemma StrayEnd(env: Env, s: Session, data: string)
    requires Ready(env, s) && env.bracketed && Includes(data, PASTE_END) && !StartsWith(data, PASTE_START)
    ensures Press(env, s, data) == (s, Continue)
  {
  }

  /** When the paste timer runs out, what has arrived is inserted and the paste is over. */
  lemma TimeOutPastes(env: Env, s: Session)
    requires WellFormed(env, s)
    ensures !(s.paste.active && s.paste.text != "") ==> TimeOut(env, s) == s
    ensures s.paste.active && s.paste.text != "" ==>
              && TimeOut(env, s).line == Line(s.line.before + KeepPasted(s.paste.text), s.line.after)
              && !TimeOut(env, s).paste.active && TimeOut(env, s).paste.text == ""
  {
    assert s.line.before + "" == s.line.before;
  }
}
