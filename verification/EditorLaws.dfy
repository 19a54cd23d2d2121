/** Laws of the line editor over several events: history round trips and chunked pastes. */
module EditorLaws {
  import opened Text
  import opened EditorModel

  // ---------------------------------------------------------------------------
  // History
  // ---------------------------------------------------------------------------

  lemma ArrowsKeep(env: Env, s: Session)
    requires WellFormed(env, s)
    ensures WellFormed(env, UpStep(env, s)) && WellFormed(env, DownStep(env, s))
  {
  }

  /** Outside a paste the two arrow sequences are the two steps. */
  lemma ArrowKeys(env: Env, s: Session)
    requires WellFormed(env, s) && !s.paste.active
    ensures Press(env, s, [ESC] + "[A") == (UpStep(env, s), Continue)
    ensures Press(env, s, [ESC] + "[B") == (DownStep(env, s), Continue)
  {
    var up, down := [ESC] + "[A", [ESC] + "[B";
    assert |up| == 3 && |down| == 3;
    assert up[2] == 'A' && down[2] == 'B';
    assert KeyOf(up) == Up;
    assert KeyOf(down) == Down;
    assert IndexOf(up, PASTE_END) == -1 && IndexOf(down, PASTE_END) == -1;
  }

  /** The session after the first `i` of `k` Ups and then `k` Downs. */
  function Walk(env: Env, s: Session, k: nat, i: nat): (s': Session)
    requires WellFormed(env, s)
    ensures WellFormed(env, s')
    decreases i
  {
    if i == 0 then s
    else
      var t := Walk(env, s, k, i - 1);
      ArrowsKeep(env, t);
      if i <= k then UpStep(env, t) else DownStep(env, t)
  }

  function UpsAndDowns(env: Env, s: Session, k: nat): Session
    requires WellFormed(env, s)
  {
    Walk(env, s, k, 2 * k)
  }

  /** Where step `i` of such a walk from position `nav` stands in a history of `h` entries; -1 is the saved text. */
  function PosAt(h: nat, nav: int, k: nat, i: nat): int {
    var top := if nav + k < h then nav + k else h - 1;
    if i <= k then (if nav + i < h then nav + i else h - 1)
    else if top - (i - k) >= -1 then top - (i - k)
    else -1
  }

  lemma PosInRange(h: nat, nav: int, k: nat, i: nat)
    requires -1 <= nav < h
    ensures -1 <= PosAt(h, nav, k, i) < h
  {
  }

  /** The text of a position: what the walk saves on leaving the line, or a history entry. */
  function PosText(env: Env, s: Session, pos: int): string
    requires -1 <= pos < |env.history|
  {
    if pos >= 0 then Entry(env, pos) else if s.nav == -1 then s.line.Text() else s.saved
  }

  function StepText(env: Env, s: Session, k: nat, i: nat): string
    requires WellFormed(env, s) && env.history != []
  {
    PosInRange(|env.history|, s.nav, k, i);
    PosText(env, s, PosAt(|env.history|, s.nav, k, i))
  }

  /** Step `i` of the walk brings up a menu. */
  predicate LoudAt(env: Env, s: Session, k: nat, i: nat)
    requires WellFormed(env, s) && env.history != []
  {
    Suggests(env, StepText(env, s, k, i))
  }

  /** The walk comes to rest at step `p`: the first one that brings up a menu, or the last one. */
  predicate Rests(env: Env, s: Session, k: nat, p: nat)
    requires WellFormed(env, s) && env.history != []
  {
    && 1 <= p <= 2 * k
    && (forall q: nat | 1 <= q < p :: !LoudAt(env, s, k, q))
    && (LoudAt(env, s, k, p) || p == 2 * k)
  }

  /** `t` can leave position `pos`: no menu is open and the text to come back to is known. */
  predicate Standing(env: Env, s: Session, t: Session, pos: int)
    requires -1 <= pos < |env.history|
  {
    && t.nav == pos && !t.menu.Open()
    && PosText(env, s, -1) == if pos == -1 then t.line.Text() else t.saved
  }

  predicate Shows(env: Env, s: Session, t: Session, pos: int)
    requires -1 <= pos < |env.history|
  {
    t.nav == pos && t.line == Line(PosText(env, s, pos), "") && t.saved == PosText(env, s, -1)
  }

  lemma UpShows(env: Env, s: Session, t: Session, pos: int, next: int)
    requires WellFormed(env, t) && -1 <= pos < |env.history| && env.history != [] && Standing(env, s, t, pos)
    requires next == if pos + 1 < |env.history| then pos + 1 else |env.history| - 1
    ensures Shows(env, s, UpStep(env, t), next)
    ensures UpStep(env, t).menu.Open() <==> Suggests(env, PosText(env, s, next))
  {
    var entry := Entry(env, next);
    assert Line(entry, "").Text() == entry;
  }

  lemma DownShows(env: Env, s: Session, t: Session, pos: int, next: int)
    requires WellFormed(env, t) && -1 <= pos < |env.history| && Shows(env, s, t, pos)
    requires !t.menu.Open() && !Suggests(env, PosText(env, s, pos))
    requires next == if pos >= 0 then pos - 1 else -1
    ensures Shows(env, s, DownStep(env, t), next)
    ensures DownStep(env, t).menu.Open() <==> Suggests(env, PosText(env, s, next))
  {
    var text := PosText(env, s, next);
    assert Line(text, "").Text() == text;
  }

  /** Under an open menu neither Up nor Down changes the line. */
  lemma MenuStep(env: Env, s: Session)
    requires WellFormed(env, s) && s.menu.Open()
    ensures UpStep(env, s).line == s.line && UpStep(env, s).menu.Open()
    ensures DownStep(env, s).line == s.line && DownStep(env, s).menu.Open()
  {
  }

  /** Step `i` shows its position; its menu is open exactly when the text brings one up. */
  predicate ShowsAt(env: Env, s: Session, k: nat, i: nat, t: Session)
    requires WellFormed(env, s) && env.history != []
  {
    PosInRange(|env.history|, s.nav, k, i);
    Shows(env, s, t, PosAt(|env.history|, s.nav, k, i)) && (t.menu.Open() <==> LoudAt(env, s, k, i))
  }

  lemma FirstStep(env: Env, s: Session, k: nat)
    requires WellFormed(env, s) && env.history != [] && !s.menu.Open() && k >= 1
    ensures ShowsAt(env, s, k, 1, Walk(env, s, k, 1))
  {
    assert Walk(env, s, k, 0) == s;
    assert Standing(env, s, s, s.nav);
    UpShows(env, s, s, s.nav, PosAt(|env.history|, s.nav, k, 1));
  }

  /** A step from where no menu is open. */
  lemma NextStep(env: Env, s: Session, k: nat, i: nat, t: Session)
    requires WellFormed(env, s) && env.history != [] && WellFormed(env, t)
    requires 1 <= i < 2 * k && ShowsAt(env, s, k, i, t) && !t.menu.Open()
    ensures ShowsAt(env, s, k, i + 1, if i + 1 <= k then UpStep(env, t) else DownStep(env, t))
  {
    var h := |env.history|;
    var pos, next := PosAt(h, s.nav, k, i), PosAt(h, s.nav, k, i + 1);
    PosInRange(h, s.nav, k, i);
    PosInRange(h, s.nav, k, i + 1);
    if i + 1 <= k {
      assert Line(PosText(env, s, pos), "").Text() == PosText(env, s, pos);
      UpShows(env, s, t, pos, next);
    } else {
      DownShows(env, s, t, pos, next);
    }
  }

  /** As long as nothing was loud the walk shows its position; from the first loud step on its line stays. */
  predicate Tells(env: Env, s: Session, k: nat, i: nat, t: Session)
    requires WellFormed(env, s) && env.history != []
  {
    && ((forall q: nat | 1 <= q < i :: !LoudAt(env, s, k, q)) ==> ShowsAt(env, s, k, i, t))
    && (forall p: nat | p < i && Rests(env, s, k, p) :: t.menu.Open() && t.line == Line(StepText(env, s, k, p), ""))
  }

  lemma TellsNext(env: Env, s: Session, k: nat, i: nat, t: Session, next: Session)
    requires WellFormed(env, s) && env.history != [] && WellFormed(env, t)
    requires 1 <= i < 2 * k && Tells(env, s, k, i, t)
    requires next == if i + 1 <= k then UpStep(env, t) else DownStep(env, t)
    ensures Tells(env, s, k, i + 1, next)
  {
    if forall q: nat | 1 <= q <= i :: !LoudAt(env, s, k, q) {
      NextStep(env, s, k, i, t);
    }
    forall p: nat | p < i + 1 && Rests(env, s, k, p)
      ensures next.menu.Open() && next.line == Line(StepText(env, s, k, p), "")
    {
      RestedBefore(env, s, k, i, t, p);
      MenuStep(env, t);
    }
  }

  lemma RestedBefore(env: Env, s: Session, k: nat, i: nat, t: Session, p: nat)
    requires WellFormed(env, s) && env.history != [] && Tells(env, s, k, i, t)
    requires Rests(env, s, k, p) && p <= i < 2 * k
    ensures t.menu.Open() && t.line == Line(StepText(env, s, k, p), "")
  {
    assert LoudAt(env, s, k, p);
  }

  lemma WalkStep(env: Env, s: Session, k: nat, i: nat)
    requires WellFormed(env, s)
    ensures Walk(env, s, k, i + 1) ==
            if i + 1 <= k then UpStep(env, Walk(env, s, k, i)) else DownStep(env, Walk(env, s, k, i))
  {
  }

  lemma TellsOn(env: Env, s: Session, k: nat, i: nat)
    requires WellFormed(env, s) && env.history != [] && 1 <= i < 2 * k
    ensures Tells(env, s, k, i, Walk(env, s, k, i)) ==> Tells(env, s, k, i + 1, Walk(env, s, k, i + 1))
  {
    if Tells(env, s, k, i, Walk(env, s, k, i)) {
      WalkStep(env, s, k, i);
      TellsNext(env, s, k, i, Walk(env, s, k, i), Walk(env, s, k, i + 1));
    }
  }

  lemma {:induction false} FromOneOn(holds: nat -> bool, last: nat)
    requires last >= 1 && holds(1) && forall i: nat | 1 <= i < last :: holds(i) ==> holds(i + 1)
    ensures holds(last)
  {
    if last == 1 {
    } else {
      FromOneOn(holds, last - 1);
    }
  }

  lemma WalkTells(env: Env, s: Session, k: nat)
    requires WellFormed(env, s) && env.history != [] && !s.menu.Open() && k >= 1
    ensures Tells(env, s, k, 2 * k, UpsAndDowns(env, s, k))
  {
    var tells := (i: nat) => Tells(env, s, k, i, Walk(env, s, k, i));
    FirstStep(env, s, k);
    assert tells(1);
    forall i: nat | 1 <= i < 2 * k
      ensures tells(i) ==> tells(i + 1)
    {
      TellsOn(env, s, k, i);
    }
    FromOneOn(tells, 2 * k);
  }

  lemma {:induction false} RestExists(env: Env, s: Session, k: nat, p: nat) returns (rest: nat)
    requires WellFormed(env, s) && env.history != [] && 1 <= p <= 2 * k
    requires forall q: nat | 1 <= q < p :: !LoudAt(env, s, k, q)
    ensures Rests(env, s, k, rest)
    decreases 2 * k - p
  {
    if LoudAt(env, s, k, p) || p == 2 * k {
      rest := p;
    } else {
      rest := RestExists(env, s, k, p + 1);
    }
  }

  /** The walk ends with the text of the step at which it comes to rest, the cursor at its end. */
  lemma WalkRests(env: Env, s: Session, k: nat, p: nat)
    requires WellFormed(env, s) && env.history != [] && !s.menu.Open() && Rests(env, s, k, p)
    ensures UpsAndDowns(env, s, k).line == Line(StepText(env, s, k, p), "")
  {
    WalkTells(env, s, k);
  }

  /** Exactly when k Ups and k Downs restore the text, for any history, position and k. */
  lemma HistoryRestoresExactly(env: Env, s: Session, k: nat)
    requires WellFormed(env, s) && env.history != [] && !s.menu.Open() && k >= 1
    ensures UpsAndDowns(env, s, k).line.Text() == s.line.Text() <==>
            exists p :: Rests(env, s, k, p) && StepText(env, s, k, p) == s.line.Text()
  {
    var rest := RestExists(env, s, k, 1);
    forall p | Rests(env, s, k, p)
      ensures UpsAndDowns(env, s, k).line.Text() == StepText(env, s, k, p)
    {
      WalkRests(env, s, k, p);
      assert Line(StepText(env, s, k, p), "").Text() == StepText(env, s, k, p);
    }
  }

  /** Without any history the arrows do nothing. */
  lemma {:induction false} NoHistory(env: Env, s: Session, k: nat, i: nat)
    requires WellFormed(env, s) && env.history == [] && !s.menu.Open()
    ensures Walk(env, s, k, i) == s
    decreases i
  {
    if i == 0 {
    } else {
      NoHistory(env, s, k, i - 1);
    }
  }

  /** No entry from `first` to before `last` places from the newest brings up a menu. */
  predicate QuietEntries(env: Env, first: int, last: int)
    requires 0 <= first && last <= |env.history|
  {
    forall j | first <= j < last :: Quiet(env, j)
  }

  /** The entry `back` places from the newest brings up no menu. */
  predicate Quiet(env: Env, back: int)
    requires 0 <= back < |env.history|
  {
    !Suggests(env, Entry(env, back))
  }

  /** With no menu among the entries passed, the walk ends where it began: at the saved text or at the entry itself. */
  lemma HistoryRestores(env: Env, s: Session, k: nat)
    requires WellFormed(env, s) && !s.menu.Open()
    requires 1 <= k && s.nav + k < |env.history| && QuietEntries(env, s.nav + 1, s.nav + k + 1)
    ensures UpsAndDowns(env, s, k).line == Line(PosText(env, s, s.nav), "")
  {
    forall q: nat | 1 <= q < 2 * k
      ensures !LoudAt(env, s, k, q)
    {
      assert Quiet(env, PosAt(|env.history|, s.nav, k, q));
    }
    WalkRests(env, s, k, 2 * k);
  }

  /**
   The first entry on the way up that opens a menu holds the line: further Ups and all Downs move the
   selection only.
   */
  lemma HistorySticks(env: Env, s: Session, k: nat, first: nat)
    requires WellFormed(env, s) && !s.menu.Open()
    requires s.nav < first <= s.nav + k && s.nav + k < |env.history|
    requires QuietEntries(env, s.nav + 1, first) && !Quiet(env, first)
    ensures UpsAndDowns(env, s, k).line == Line(Entry(env, first), "")
  {
    forall q: nat | 1 <= q < first - s.nav
      ensures !LoudAt(env, s, k, q)
    {
      assert Quiet(env, s.nav + q);
    }
    WalkRests(env, s, k, first - s.nav);
  }

  /** Entries that do not start with '/' open no menu. */
  lemma PlainEntriesAreQuiet(env: Env, k: nat)
    requires k <= |env.history|
    requires forall j | 0 <= j < k :: !StartsWith(Entry(env, j), "/")
    ensures QuietEntries(env, 0, k)
  {
  }

  // ---------------------------------------------------------------------------
  // Pastes in chunks
  // ---------------------------------------------------------------------------

  function Feed(env: Env, s: Session, chunks: seq<string>): (s': Session)
    requires WellFormed(env, s)
    ensures WellFormed(env, s')
    decreases |chunks|
  {
    if chunks == [] then s
    else
      PressKeeps(env, s, chunks[0]);
      Feed(env, Press(env, s, chunks[0]).0, chunks[1..])
  }

  function Concat(parts: seq<string>): string {
    if parts == [] then "" else parts[0] + Concat(parts[1..])
  }

  ghost predicate EndFree(s: string) {
    forall i :: !OccursAt(s, PASTE_END, i)
  }

  /** ESC opens the end marker and occurs nowhere else in either marker: no occurrence straddles one. */
  lemma MarkerShape()
    ensures |PASTE_START| == 6 && |PASTE_END| == 6 && PASTE_START != PASTE_END
    ensures PASTE_START[0] == ESC && PASTE_END[0] == ESC
    ensures forall i | 1 <= i < 6 :: PASTE_START[i] != ESC && PASTE_END[i] != ESC
  {
    assert PASTE_START[4] == '0';
    assert PASTE_END[4] == '1';
  }

  lemma OccursInside(s: string, from: nat, to: nat, i: int)
    requires from <= to <= |s| && from <= i && i + 6 <= to && |PASTE_END| == 6
    ensures OccursAt(s, PASTE_END, i) <==> OccursAt(s[from..to], PASTE_END, i - from)
  {
    var t := s[from..to];
    assert t[i - from..] == s[i..to];
    assert s[i..to][..6] == s[i..i + 6];
    assert t[i - from..][..6] == t[i - from..i - from + 6];
    assert t[i - from..i - from + 6] == s[i..i + 6];
  }

  /** After a whole start marker, the end marker occurs only where the rest holds it. */
  lemma NoEndAcrossStart(x: string, i: int)
    requires OccursAt(PASTE_START + x, PASTE_END, i)
    ensures i >= 6 && OccursAt(x, PASTE_END, i - 6)
  {
    MarkerShape();
    var s := PASTE_START + x;
    assert s[i] == s[i..i + 6][0] == ESC;
    assert s[0..6] == PASTE_START;
    assert forall k | 0 <= k < 6 :: s[k] == PASTE_START[k];
    OccursInside(s, 6, |s|, i);
    assert s[6..|s|] == x;
  }

  lemma EscOnlyFirst(s: string, i: int, j: int)
    requires OccursAt(s, PASTE_END, i) && i < j < i + 6
    ensures s[j] != ESC
  {
    MarkerShape();
    assert s[j] == s[i..i + 6][j - i];
  }

  /** Before a whole end marker, the end marker occurs only inside the rest: it has no self-overlap. */
  lemma NoEndAcrossEnd(x: string, i: int)
    requires OccursAt(x + PASTE_END, PASTE_END, i) && i < |x|
    ensures OccursAt(x, PASTE_END, i)
  {
    MarkerShape();
    var s := x + PASTE_END;
    assert s[|x|] == ESC;
    if |x| < i + 6 {
      EscOnlyFirst(s, i, |x|);
    }
    OccursInside(s, 0, |x|, i);
    assert s[0..|x|] == x;
  }

  lemma EndFoundAtOnce(x: string)
    requires EndFree(x)
    ensures IndexOf(x + PASTE_END, PASTE_END) == |x|
  {
    var s := x + PASTE_END;
    assert OccursAt(s, PASTE_END, |x|);
    var i := IndexOf(s, PASTE_END);
    if 0 <= i < |x| {
      NoEndAcrossEnd(x, i);
    }
  }

  lemma EndNotFound(x: string)
    requires EndFree(x)
    ensures IndexOf(x, PASTE_END) == -1
  {
  }

  lemma StartChunk(x: string)
    requires EndFree(x)
    ensures EndFree(PASTE_START + x)
  {
    forall i
      ensures !OccursAt(PASTE_START + x, PASTE_END, i)
    {
      if OccursAt(PASTE_START + x, PASTE_END, i) {
        NoEndAcrossStart(x, i);
      }
    }
  }

  lemma OccursInSum(a: string, b: string, i: int)
    ensures OccursAt(a, PASTE_END, i) ==> OccursAt(a + b, PASTE_END, i)
    ensures OccursAt(b, PASTE_END, i) ==> OccursAt(a + b, PASTE_END, |a| + i)
  {
    var n := |PASTE_END|;
    assert OccursAt(a, PASTE_END, i) ==> (a + b)[i..i + n] == a[i..i + n];
    assert OccursAt(b, PASTE_END, i) ==> (a + b)[|a| + i..|a| + i + n] == b[i..i + n];
  }

  lemma EndFreeParts(a: string, b: string)
    requires EndFree(a + b)
    ensures EndFree(a) && EndFree(b)
  {
    forall i
      ensures !OccursAt(a, PASTE_END, i) && !OccursAt(b, PASTE_END, i)
    {
      OccursInSum(a, b, i);
    }
  }

  /** The end marker closes the last part of a paste. */
  function Closed(parts: seq<string>): seq<string>
    requires parts != []
  {
    parts[..|parts| - 1] + [parts[|parts| - 1] + PASTE_END]
  }

  /** None of the chunks looks like the start of another paste. */
  predicate NoRestart(chunks: seq<string>) {
    forall i | 0 <= i < |chunks| :: !StartsWith(chunks[i], PASTE_START)
  }

  lemma CollectStep(env: Env, s: Session, part: string)
    requires env.bracketed && WellFormed(env, s) && s.paste.active
    requires EndFree(part) && !StartsWith(part, PASTE_START)
    ensures Press(env, s, part).0 == s.(paste := s.paste.(text := s.paste.text + part))
  {
    EndNotFound(part);
  }

  lemma CompleteStep(env: Env, s: Session, part: string)
    requires env.bracketed && WellFormed(env, s) && s.paste.active
    requires EndFree(part) && !StartsWith(part + PASTE_END, PASTE_START)
    ensures Press(env, s, part + PASTE_END).0 == Pasted(env, s.(paste := Paste(false, "", false)), s.paste.text + part)
  {
    EndFoundAtOnce(part);
    assert (part + PASTE_END)[..|part|] == part;
  }

  lemma FeedOne(env: Env, s: Session, chunks: seq<string>)
    requires WellFormed(env, s) && chunks != []
    ensures WellFormed(env, Press(env, s, chunks[0]).0)
    ensures Feed(env, s, chunks) == Feed(env, Press(env, s, chunks[0]).0, chunks[1..])
    ensures |chunks| == 1 ==> Feed(env, s, chunks) == Press(env, s, chunks[0]).0
  {
    PressKeeps(env, s, chunks[0]);
  }

  lemma ClosedOne(parts: seq<string>)
    requires |parts| == 1
    ensures Concat(parts) == parts[0] && Closed(parts) == [parts[0] + PASTE_END]
    ensures NoRestart(Closed(parts)) ==> !StartsWith(parts[0] + PASTE_END, PASTE_START)
  {
    assert parts == [parts[0]];
    assert Concat([]) == "";
    assert Closed(parts)[0] == parts[0] + PASTE_END;
  }

  lemma ClosedRest(parts: seq<string>)
    requires |parts| >= 2
    ensures Closed(parts)[0] == parts[0] && Closed(parts)[1..] == Closed(parts[1..])
    ensures NoRestart(Closed(parts)) ==> NoRestart(Closed(parts[1..])) && !StartsWith(parts[0], PASTE_START)
  {
    var chunks := Closed(parts);
    assert chunks[0] == parts[0] && chunks[1..] == Closed(parts[1..]);
    assert forall i | 0 <= i < |chunks[1..]| :: chunks[1..][i] == chunks[i + 1];
  }

  lemma FirstPart(env: Env, s: Session, parts: seq<string>)
    requires env.bracketed && WellFormed(env, s) && s.paste.active
    requires |parts| >= 2 && EndFree(Concat(parts)) && !StartsWith(parts[0], PASTE_START)
    ensures Press(env, s, parts[0]).0 == s.(paste := s.paste.(text := s.paste.text + parts[0]))
    ensures EndFree(Concat(parts[1..]))
    ensures s.paste.text + parts[0] + Concat(parts[1..]) == s.paste.text + Concat(parts)
  {
    var rest := Concat(parts[1..]);
    assert Concat(parts) == parts[0] + rest;
    EndFreeParts(parts[0], rest);
    CollectStep(env, s, parts[0]);
    Associates(s.paste.text, parts[0], rest);
  }

  /** While a paste is collected, the parts pile up and the last one completes it. */
  lemma {:induction false} PartsPileUp(env: Env, s: Session, parts: seq<string>)
    requires env.bracketed && WellFormed(env, s) && s.paste.active
    requires parts != [] && EndFree(Concat(parts)) && NoRestart(Closed(parts))
    ensures Feed(env, s, Closed(parts)) ==
            Pasted(env, s.(paste := Paste(false, "", false)), s.paste.text + Concat(parts))
    decreases |parts|
  {
    var chunks := Closed(parts);
    FeedOne(env, s, chunks);
    if |parts| == 1 {
      ClosedOne(parts);
      CompleteStep(env, s, parts[0]);
    } else {
      var more := s.(paste := s.paste.(text := s.paste.text + parts[0]));
      FirstPart(env, s, parts);
      ClosedRest(parts);
      PartsPileUp(env, more, parts[1..]);
      assert more.(paste := Paste(false, "", false)) == s.(paste := Paste(false, "", false));
    }
  }

  /** A paste that arrives in one chunk. */
  lemma WholePaste(env: Env, s: Session, content: string)
    requires env.bracketed && WellFormed(env, s) && EndFree(content)
    ensures Feed(env, s, [PASTE_START + content + PASTE_END]) ==
            Pasted(env, s.(paste := Paste(false, "", s.paste.timer)), content)
  {
    var data := PASTE_START + content + PASTE_END;
    MarkerShape();
    StartChunk(content);
    EndFoundAtOnce(PASTE_START + content);
    assert data[..6] == PASTE_START;
    assert data[6..6 + |content|] == content;
    FeedOne(env, s, [data]);
  }

  lemma OpenStep(env: Env, s: Session, x: string)
    requires env.bracketed && WellFormed(env, s) && EndFree(x)
    ensures Press(env, s, PASTE_START + x).0 == s.(paste := Paste(true, x, true))
  {
    var data := PASTE_START + x;
    MarkerShape();
    StartChunk(x);
    EndNotFound(data);
    assert data[..6] == PASTE_START && data[6..] == x;
  }

  /** The chunks of a paste split into `parts`. */
  function PasteChunks(parts: seq<string>): seq<string>
    requires |parts| >= 2
  {
    [PASTE_START + parts[0]] + Closed(parts[1..])
  }

  /** A paste that arrives in several chunks. */
  lemma ChunkedPaste(env: Env, s: Session, parts: seq<string>)
    requires env.bracketed && WellFormed(env, s) && |parts| >= 2
    requires EndFree(Concat(parts)) && NoRestart(Closed(parts[1..]))
    ensures Feed(env, s, PasteChunks(parts)) == Pasted(env, s.(paste := Paste(false, "", false)), Concat(parts))
  {
    EndFreeParts(parts[0], Concat(parts[1..]));
    OpenStep(env, s, parts[0]);
    FeedOne(env, s, PasteChunks(parts));
    assert PasteChunks(parts)[1..] == Closed(parts[1..]);
    PartsPileUp(env, s.(paste := Paste(true, parts[0], true)), parts[1..]);
  }

  /**
   Chunking does not matter: content without an end marker, split anywhere into chunks, leaves the same
   line, cursor and menu as the paste in one chunk.
   */
  lemma ChunkingIndependent(env: Env, s: Session, parts: seq<string>)
    requires env.bracketed && WellFormed(env, s) && |parts| >= 2
    requires EndFree(Concat(parts)) && NoRestart(Closed(parts[1..]))
    ensures var whole := Feed(env, s, [PASTE_START + Concat(parts) + PASTE_END]);
            var pieces := Feed(env, s, PasteChunks(parts));
            && pieces.line == whole.line == Line(s.line.before + KeepPasted(Concat(parts)), s.line.after)
            && pieces.menu == whole.menu && pieces.nav == whole.nav && pieces.saved == whole.saved
            && !pieces.paste.active && !whole.paste.active
  {
    WholePaste(env, s, Concat(parts));
    ChunkedPaste(env, s, parts);
    assert s.line.before + "" == s.line.before;
  }

  /** Chunk `i`, or for -1 the session itself, opens a paste, and no chunk from there on holds the end marker. */
  predicate OpenSince(s: Session, chunks: seq<string>, i: int) {
    && -1 <= i < |chunks|
    && (if i == -1 then s.paste.active else StartsWith(chunks[i], PASTE_START))
    && forall j | 0 <= j < |chunks| && i <= j :: !Includes(chunks[j], PASTE_END)
  }

  lemma ChunkOpens(env: Env, s: Session, data: string)
    requires env.bracketed && WellFormed(env, s)
    ensures Press(env, s, data).0.paste.active <==>
            (s.paste.active || StartsWith(data, PASTE_START)) && !Includes(data, PASTE_END)
  {
  }

  lemma OpenSinceRest(s: Session, s': Session, chunks: seq<string>, i: int)
    requires chunks != [] && -1 <= i < |chunks| - 1
    requires s'.paste.active <==>
             (s.paste.active || StartsWith(chunks[0], PASTE_START)) && !Includes(chunks[0], PASTE_END)
    ensures i >= 0 ==> (OpenSince(s', chunks[1..], i) <==> OpenSince(s, chunks, i + 1))
    ensures OpenSince(s', chunks[1..], -1) <==> OpenSince(s, chunks, -1) || OpenSince(s, chunks, 0)
  {
    var rest := chunks[1..];
    assert forall j | 0 <= j < |rest| :: rest[j] == chunks[j + 1];
    assert forall j | 1 <= j < |chunks| :: chunks[j] == rest[j - 1];
  }

  /** Exactly when a paste is still open after any chunks: it was opened and no later chunk holds a whole end marker. */
  lemma {:induction false} PasteOpenExactly(env: Env, s: Session, chunks: seq<string>)
    requires env.bracketed && WellFormed(env, s)
    ensures Feed(env, s, chunks).paste.active <==> exists i :: OpenSince(s, chunks, i)
    decreases |chunks|
  {
    if chunks == [] {
      assert OpenSince(s, chunks, -1) <==> s.paste.active;
    } else {
      var s', rest := Press(env, s, chunks[0]).0, chunks[1..];
      FeedOne(env, s, chunks);
      ChunkOpens(env, s, chunks[0]);
      PasteOpenExactly(env, s', rest);
      OpenSinceRest(s, s', chunks, -1);
      if i :| OpenSince(s', rest, i) {
        OpenSinceRest(s, s', chunks, i);
        assert i >= 0 ==> OpenSince(s, chunks, i + 1);
      }
      if i :| OpenSince(s, chunks, i) {
        if i > 0 {
          OpenSinceRest(s, s', chunks, i - 1);
          assert OpenSince(s', rest, i - 1);
        } else {
          assert OpenSince(s', rest, -1);
        }
      }
    }
  }

  /** Without a second start marker the paste is over exactly when some chunk holds the whole end marker. */
  lemma PasteClosesExactly(env: Env, s: Session, chunks: seq<string>)
    requires env.bracketed && WellFormed(env, s) && NoRestart(chunks)
    ensures Feed(env, s, chunks).paste.active <==>
            s.paste.active && forall i | 0 <= i < |chunks| :: !Includes(chunks[i], PASTE_END)
  {
    PasteOpenExactly(env, s, chunks);
    assert OpenSince(s, chunks, -1) <==>
           s.paste.active && forall i | 0 <= i < |chunks| :: !Includes(chunks[i], PASTE_END);
  }

  /** A part of the end marker after text without one completes no end marker. */
  lemma PartialEndFree(content: string, cut: nat)
    requires EndFree(content) && 1 <= cut < 6 && |PASTE_END| == 6
    ensures EndFree(content + PASTE_END[..cut])
  {
    MarkerShape();
    var open := content + PASTE_END[..cut];
    assert open[|content|] == ESC;
    forall i
      ensures !OccursAt(open, PASTE_END, i)
    {
      if OccursAt(open, PASTE_END, i) {
        assert open[0..|content|] == content;
        if |content| < i + 6 {
          EscOnlyFirst(open, i, |content|);
        } else {
          OccursInside(open, 0, |content|, i);
        }
      }
    }
  }

  /** However the end marker is split over two chunks, it is missed: the paste stays open and the line unchanged. */
  lemma SplitMarkerMissed(env: Env, s: Session, content: string, cut: nat)
    requires env.bracketed && WellFormed(env, s) && EndFree(content) && 1 <= cut < 6
    ensures Feed(env, s, [PASTE_START + content + PASTE_END[..cut], PASTE_END[cut..]]).paste.active
    ensures Feed(env, s, [PASTE_START + content + PASTE_END[..cut], PASTE_END[cut..]]).line == s.line
  {
    MarkerShape();
    PartialEndFree(content, cut);
    var open, rest := content + PASTE_END[..cut], PASTE_END[cut..];
    var s' := s.(paste := Paste(true, open, true));
    var chunks := [PASTE_START + content + PASTE_END[..cut], rest];
    assert chunks[0] == PASTE_START + open;
    OpenStep(env, s, open);
    FeedOne(env, s, chunks);
    assert chunks[1..] == [rest];
    assert |rest| < 6 && !StartsWith(rest, PASTE_START) && !Includes(rest, PASTE_END);
    PasteClosesExactly(env, s', [rest]);
    FeedOne(env, s', [rest]);
  }
}
