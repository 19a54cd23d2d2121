/**
 Parameter interpolation for the ProxySQL admin interface, against the lexical rules of SQL character
 literals: two quotes inside a literal stand for one (section 5.3 of ISO/IEC 9075-2).
 */
module SqlText {
  import Text

  datatype Value = Null | Number(n: int) | Boolean(b: bool) | Str(text: string)

  const QUOTE := '\''

  function DoubleQuotes(s: string): string {
    if s == "" then ""
    else (if s[0] == QUOTE then [QUOTE, QUOTE] else [s[0]]) + DoubleQuotes(s[1..])
  }

  /** What replaces a placeholder. */
  function Literal(v: Value): string {
    match v
    case Null => "NULL"
    case Number(n) => Text.Num(n)
    case Boolean(b) => if b then "1" else "0"
    case Str(s) => [QUOTE] + DoubleQuotes(s) + [QUOTE]
  }

  /** A placeholder without a parameter reads as NULL. */
  function First(params: seq<Value>): Value {
    if params == [] then Null else params[0]
  }

  function Rest(params: seq<Value>): seq<Value> {
    if params == [] then [] else params[1..]
  }

  /** Every '?' replaced, one parameter after the other. */
  function Fill(sql: string, params: seq<Value>): string {
    if sql == "" then ""
    else if sql[0] == '?' then Literal(First(params)) + Fill(sql[1..], Rest(params))
    else [sql[0]] + Fill(sql[1..], params)
  }

  function Interpolate(sql: string, params: seq<Value>): string {
    if params == [] then sql else Fill(sql, params)
  }

  // ---------------------------------------------------------------------------
  // Lexing
  // ---------------------------------------------------------------------------

  /** A character outside literals, a whole literal with its decoded text, or a literal left open. */
  datatype Token = Chr(c: char) | Lit(text: string) | Open(text: string)

  function Lex(s: string): seq<Token>
    decreases |s|
  {
    if s == "" then []
    else if s[0] == QUOTE then LexInside(s[1..], "")
    else [Chr(s[0])] + Lex(s[1..])
  }

  /** The rest of a literal whose text so far is `text`. */
  function LexInside(s: string, text: string): (tokens: seq<Token>)
    ensures tokens != [] && !tokens[0].Chr? && text <= tokens[0].text
    decreases |s|
  {
    if s == "" then [Open(text)]
    else if s[0] != QUOTE then LexInside(s[1..], text + [s[0]])
    else if |s| >= 2 && s[1] == QUOTE then LexInside(s[2..], text + [QUOTE])
    else [Lit(text)] + Lex(s[1..])
  }

  function Chars(s: string): seq<Token> {
    if s == "" then [] else [Chr(s[0])] + Chars(s[1..])
  }

  /** The tokens a value stands for: a string is one literal that decodes to it. */
  function ValueTokens(v: Value): seq<Token> {
    match v
    case Null => [Chr('N'), Chr('U'), Chr('L'), Chr('L')]
    case Number(n) => Chars(Text.Num(n))
    case Boolean(b) => if b then [Chr('1')] else [Chr('0')]
    case Str(text) => [Lit(text)]
  }

  /** The meaning of a parameterised statement: its i-th placeholder token is the i-th value. */
  function Placed(tokens: seq<Token>, params: seq<Value>): seq<Token> {
    if tokens == [] then []
    else if tokens[0] == Chr('?') then ValueTokens(First(params)) + Placed(tokens[1..], Rest(params))
    else [tokens[0]] + Placed(tokens[1..], params)
  }

  // ---------------------------------------------------------------------------
  // Clean templates
  // ---------------------------------------------------------------------------

  predicate Glues(s: string) {
    s != "" && (s[0] == QUOTE || s[0] == '?')
  }

  /**
   No '?' lies inside a literal, and none touches a quote or another '?'. `touched` tells that the
   character before `s` closed a literal.
   */
  predicate CleanOutside(s: string, touched: bool)
    decreases |s|
  {
    if s == "" then true
    else if s[0] == QUOTE then CleanInside(s[1..])
    else if s[0] == '?' then !touched && !Glues(s[1..]) && CleanOutside(s[1..], false)
    else CleanOutside(s[1..], false)
  }

  predicate CleanInside(s: string)
    decreases |s|
  {
    if s == "" then true
    else if s[0] == '?' then false
    else if s[0] != QUOTE then CleanInside(s[1..])
    else if |s| >= 2 && s[1] == QUOTE then CleanInside(s[2..])
    else CleanOutside(s[1..], true)
  }

  predicate CleanTemplate(sql: string) {
    CleanOutside(sql, false)
  }

  // ---------------------------------------------------------------------------
  // Clean templates keep their meaning
  // ---------------------------------------------------------------------------

  /** A doubled text followed by a closing quote lexes to the text. */
  lemma {:induction false} LexDoubled(s: string, rest: string, text: string)
    requires rest == "" || rest[0] != QUOTE
    ensures LexInside(DoubleQuotes(s) + [QUOTE] + rest, text) == [Lit(text + s)] + Lex(rest)
    decreases |s|
  {
    var whole := DoubleQuotes(s) + [QUOTE] + rest;
    if s == "" {
      assert whole == [QUOTE] + rest;
      assert text + s == text;
    } else {
      var tail := DoubleQuotes(s[1..]) + [QUOTE] + rest;
      LexDoubled(s[1..], rest, text + [s[0]]);
      assert text + [s[0]] + s[1..] == text + s;
      if s[0] == QUOTE {
        assert whole == [QUOTE, QUOTE] + tail && whole[2..] == tail;
      } else {
        assert whole == [s[0]] + tail && whole[1..] == tail;
      }
    }
  }

  lemma {:induction false} LexChars(s: string, rest: string)
    requires Text.Lacks(s, QUOTE)
    ensures Lex(s + rest) == Chars(s) + Lex(rest)
  {
    if s == "" {
      assert s + rest == rest;
    } else {
      assert (s + rest)[1..] == s[1..] + rest;
      LexChars(s[1..], rest);
    }
  }

  lemma LexString(text: string, rest: string)
    requires rest == "" || rest[0] != QUOTE
    ensures Lex(Literal(Str(text)) + rest) == [Lit(text)] + Lex(rest)
  {
    LexDoubled(text, rest, "");
    LiteralOpens(text, rest);
    assert "" + text == text;
  }

  lemma LiteralOpens(text: string, rest: string)
    ensures var whole := Literal(Str(text)) + rest;
            whole[0] == QUOTE && whole[1..] == DoubleQuotes(text) + [QUOTE] + rest
  {
  }

  lemma LexLiteral(v: Value, rest: string)
    requires rest == "" || rest[0] != QUOTE
    ensures Lex(Literal(v) + rest) == ValueTokens(v) + Lex(rest)
  {
    if v.Str? {
      LexString(v.text, rest);
    } else {
      if v.Number? {
        Text.NumChars(v.n);
      }
      LexChars(Literal(v), rest);
      CharsOfLiteral(v);
    }
  }

  lemma CharsOfLiteral(v: Value)
    requires !v.Str?
    ensures Chars(Literal(v)) == ValueTokens(v)
  {
    if v.Null? {
      CharsAt("NULL");
    } else if v.Boolean? {
      CharsAt(Literal(v));
    }
  }

  lemma {:induction false} CharsAt(s: string)
    ensures |Chars(s)| == |s| && forall i | 0 <= i < |s| :: Chars(s)[i] == Chr(s[i])
  {
    if s == "" {
    } else {
      CharsAt(s[1..]);
    }
  }

  lemma FillHead(s: string, params: seq<Value>)
    requires !Glues(s)
    ensures Fill(s, params) == "" || Fill(s, params)[0] != QUOTE
  {
  }

  lemma {:induction false} MeaningOutside(s: string, params: seq<Value>, touched: bool)
    requires CleanOutside(s, touched)
    ensures Lex(Fill(s, params)) == Placed(Lex(s), params)
    decreases |s|
  {
    if s == "" {
    } else if s[0] == QUOTE {
      assert Fill(s, params)[1..] == Fill(s[1..], params);
      MeaningInside(s[1..], params, "");
    } else if s[0] == '?' {
      var rest := Fill(s[1..], Rest(params));
      FillHead(s[1..], Rest(params));
      LexLiteral(First(params), rest);
      MeaningOutside(s[1..], Rest(params), false);
      assert Lex(s)[1..] == Lex(s[1..]);
    } else {
      assert Fill(s, params)[1..] == Fill(s[1..], params);
      MeaningOutside(s[1..], params, false);
      assert Lex(s)[1..] == Lex(s[1..]);
    }
  }

  lemma {:induction false} MeaningInside(s: string, params: seq<Value>, text: string)
    requires CleanInside(s)
    ensures LexInside(Fill(s, params), text) == Placed(LexInside(s, text), params)
    decreases |s|
  {
    if s == "" {
      assert LexInside(s, text)[1..] == [];
    } else if s[0] != QUOTE {
      assert Fill(s, params)[1..] == Fill(s[1..], params);
      MeaningInside(s[1..], params, text + [s[0]]);
    } else if |s| >= 2 && s[1] == QUOTE {
      FillTwoQuotes(s, params);
      MeaningInside(s[2..], params, text + [QUOTE]);
    } else {
      assert Fill(s, params)[1..] == Fill(s[1..], params);
      FillHead(s[1..], params);
      MeaningOutside(s[1..], params, true);
      assert LexInside(s, text)[1..] == Lex(s[1..]);
    }
  }

  lemma FillTwoQuotes(s: string, params: seq<Value>)
    requires |s| >= 2 && s[0] == QUOTE && s[1] == QUOTE
    ensures Fill(s, params) == [QUOTE, QUOTE] + Fill(s[2..], params)
    ensures |Fill(s, params)| >= 2 && Fill(s, params)[2..] == Fill(s[2..], params)
  {
    assert s[1..][1..] == s[2..];
    assert Fill(s[1..], params) == [QUOTE] + Fill(s[2..], params);
    assert Fill(s, params) == [QUOTE, QUOTE] + Fill(s[2..], params);
  }

  // ---------------------------------------------------------------------------
  // Only clean templates do
  // ---------------------------------------------------------------------------

  /** Empty strings for every placeholder already tell a template apart that is not clean. */
  function Blanks(n: nat): (params: seq<Value>)
    ensures |params| == n && forall i | 0 <= i < n :: params[i] == Str("")
  {
    seq(n, _ => Str(""))
  }

  lemma BlankStep(s: string, n: nat)
    requires s != "" && s[0] == '?' && n >= 1
    ensures Fill(s, Blanks(n)) == [QUOTE, QUOTE] + Fill(s[1..], Blanks(n - 1))
    ensures Placed([Chr('?')] + Lex(s[1..]), Blanks(n)) == [Lit("")] + Placed(Lex(s[1..]), Blanks(n - 1))
  {
    assert Rest(Blanks(n)) == Blanks(n - 1);
    assert Literal(Str("")) == [QUOTE, QUOTE];
    assert ([Chr('?')] + Lex(s[1..]))[1..] == Lex(s[1..]);
  }

  lemma GluedHead(s: string, n: nat)
    requires Glues(s) && n >= 1
    ensures Fill(s, Blanks(n)) != "" && Fill(s, Blanks(n))[0] == QUOTE
  {
    assert First(Blanks(n)) == Str("");
  }

  /** A placeholder before a quote or another placeholder: the two literals merge. */
  lemma GluedPlaceholderBreaks(s: string, n: nat)
    requires s != "" && s[0] == '?' && Glues(s[1..]) && n >= |s|
    ensures Lex(Fill(s, Blanks(n))) != Placed(Lex(s), Blanks(n))
  {
    BlankStep(s, n);
    GluedHead(s[1..], n - 1);
    QuotesMerge(Fill(s[1..], Blanks(n - 1)));
    assert Placed(Lex(s), Blanks(n))[0] == Lit("");
  }

  /** An empty literal before a quote is not empty. */
  lemma QuotesMerge(rest: string)
    requires rest != "" && rest[0] == QUOTE
    ensures Lex([QUOTE, QUOTE] + rest) != [] && Lex([QUOTE, QUOTE] + rest)[0] != Lit("")
  {
    var filled := [QUOTE, QUOTE] + rest;
    assert filled[1..] == [QUOTE] + rest && ([QUOTE] + rest)[2..] == rest[1..];
    assert Lex(filled) == LexInside(rest[1..], "" + [QUOTE]);
  }

  /** A placeholder inside a literal: its text changes. */
  lemma InsidePlaceholderBreaks(s: string, n: nat, text: string)
    requires s != "" && s[0] == '?' && n >= |s|
    ensures LexInside(Fill(s, Blanks(n)), text) != Placed(LexInside(s, text), Blanks(n))
  {
    BlankStep(s, n);
    var rest := Fill(s[1..], Blanks(n - 1));
    assert ([QUOTE, QUOTE] + rest)[2..] == rest;
    var filled := LexInside(rest, text + [QUOTE])[0];
    var kept := LexInside(s[1..], text + ['?'])[0];
    assert filled.text[|text|] == (text + [QUOTE])[|text|] == QUOTE;
    assert kept.text[|text|] == (text + ['?'])[|text|] == '?';
    assert Placed(LexInside(s, text), Blanks(n))[0] == kept;
  }

  /** A placeholder right after a closing quote: the literal goes on. */
  lemma GluedCloseBreaks(s: string, n: nat, text: string)
    requires |s| >= 2 && s[0] == QUOTE && s[1] == '?' && n >= |s|
    ensures LexInside(Fill(s, Blanks(n)), text) != Placed(LexInside(s, text), Blanks(n))
  {
    GluedHead(s[1..], n);
    var rest := Fill(s[1..], Blanks(n));
    var filled := Fill(s, Blanks(n));
    assert filled == [QUOTE] + rest && filled[1..] == rest;
    assert LexInside(filled, text) == LexInside(filled[2..], text + [QUOTE]);
    assert Placed(LexInside(s, text), Blanks(n))[0] == Lit(text);
  }

  lemma {:induction false} OnlyCleanOutside(s: string, n: nat)
    requires n >= |s| && Lex(Fill(s, Blanks(n))) == Placed(Lex(s), Blanks(n))
    ensures CleanOutside(s, false)
    decreases |s|
  {
    if s == "" {
    } else if s[0] == QUOTE {
      assert Fill(s, Blanks(n))[1..] == Fill(s[1..], Blanks(n));
      OnlyCleanInside(s[1..], n, "");
    } else if s[0] != '?' {
      assert Fill(s, Blanks(n))[1..] == Fill(s[1..], Blanks(n));
      assert Lex(s)[1..] == Lex(s[1..]);
      assert Lex(Fill(s, Blanks(n)))[1..] == Lex(Fill(s[1..], Blanks(n)));
      OnlyCleanOutside(s[1..], n);
    } else if Glues(s[1..]) {
      GluedPlaceholderBreaks(s, n);
    } else {
      BlankStep(s, n);
      FillHead(s[1..], Blanks(n - 1));
      var rest := Fill(s[1..], Blanks(n - 1));
      var filled := [QUOTE, QUOTE] + rest;
      assert filled[1..] == [QUOTE] + rest && ([QUOTE] + rest)[1..] == rest;
      assert Lex(filled) == [Lit("")] + Lex(rest);
      assert Lex(filled)[1..] == Lex(rest);
      OnlyCleanOutside(s[1..], n - 1);
    }
  }

  lemma {:induction false} OnlyCleanInside(s: string, n: nat, text: string)
    requires n >= |s| && LexInside(Fill(s, Blanks(n)), text) == Placed(LexInside(s, text), Blanks(n))
    ensures CleanInside(s)
    decreases |s|
  {
    if s == "" {
    } else if s[0] == '?' {
      InsidePlaceholderBreaks(s, n, text);
    } else if s[0] != QUOTE {
      assert Fill(s, Blanks(n))[1..] == Fill(s[1..], Blanks(n));
      OnlyCleanInside(s[1..], n, text + [s[0]]);
    } else if |s| >= 2 && s[1] == QUOTE {
      FillTwoQuotes(s, Blanks(n));
      OnlyCleanInside(s[2..], n, text + [QUOTE]);
    } else if |s| >= 2 && s[1] == '?' {
      GluedCloseBreaks(s, n, text);
    } else {
      var filled, rest := Fill(s, Blanks(n)), Fill(s[1..], Blanks(n));
      assert filled == [QUOTE] + rest && filled[1..] == rest;
      FillHead(s[1..], Blanks(n));
      assert LexInside(filled, text)[1..] == Lex(rest);
      assert LexInside(s, text)[1..] == Lex(s[1..]);
      OnlyCleanOutside(s[1..], n);
    }
  }

  /** Interpolation preserves the meaning of a template for all parameters exactly when the template is clean. */
  lemma InterpolationExact(sql: string)
    ensures (forall params | params != [] :: Lex(Interpolate(sql, params)) == Placed(Lex(sql), params)) <==>
            CleanTemplate(sql)
  {
    if CleanTemplate(sql) {
      forall params | params != []
        ensures Lex(Interpolate(sql, params)) == Placed(Lex(sql), params)
      {
        MeaningOutside(sql, params, false);
      }
    } else {
      var params := Blanks(|sql| + 1);
      if Lex(Interpolate(sql, params)) == Placed(Lex(sql), params) {
        OnlyCleanOutside(sql, |sql| + 1);
      }
    }
  }

  // ---------------------------------------------------------------------------
  // What the server reads
  // ---------------------------------------------------------------------------

  /** The characters outside literals, as a text. */
  predicate Spells(tokens: seq<Token>, text: string) {
    |tokens| == |text| && forall i | 0 <= i < |text| :: tokens[i] == Chr(text[i])
  }

  /** The tokens denote the value: a literal its text, bare characters a number, a truth value or NULL. */
  ghost predicate Denotes(tokens: seq<Token>, v: Value) {
    match v
    case Null => Spells(tokens, "NULL")
    case Number(n) => exists text :: Spells(tokens, text) && Text.ParseInt(text) == Text.Some(n)
    case Boolean(b) => Spells(tokens, if b then "1" else "0")
    case Str(text) => tokens == [Lit(text)]
  }

  lemma ValueDenoted(v: Value)
    ensures Denotes(ValueTokens(v), v)
  {
    if v.Number? {
      CharsAt(Text.Num(v.n));
      Text.ParseIntNum(v.n);
      assert Spells(ValueTokens(v), Text.Num(v.n));
    }
  }

  lemma SpellsOnce(tokens: seq<Token>, a: string, b: string)
    requires Spells(tokens, a) && Spells(tokens, b)
    ensures a == b
  {
    forall i | 0 <= i < |a|
      ensures a[i] == b[i]
    {
      assert Chr(a[i]) == tokens[i] == Chr(b[i]);
    }
  }

  /** Tokens denote one number at most, one string at most, and nothing is both a string and something else. */
  lemma DenotesOnce(tokens: seq<Token>, v: Value, w: Value)
    requires Denotes(tokens, v) && Denotes(tokens, w)
    ensures v.Str? == w.Str? && v.Null? == w.Null?
    ensures v.Number? == w.Number? || v.Boolean? || w.Boolean?
    ensures (v.Str? == w.Str? && v.Number? == w.Number? && v.Null? == w.Null?) ==> v == w
  {
    if v.Number? && w.Number? {
      var a :| Spells(tokens, a) && Text.ParseInt(a) == Text.Some(v.n);
      var b :| Spells(tokens, b) && Text.ParseInt(b) == Text.Some(w.n);
      SpellsOnce(tokens, a, b);
    } else if v.Number? && w.Null? {
      NotANumber(tokens, v.n);
    } else if v.Null? && w.Number? {
      NotANumber(tokens, w.n);
    } else if v.Boolean? && w.Boolean? {
      SpellsOnce(tokens, if v.b then "1" else "0", if w.b then "1" else "0");
    }
  }

  lemma NotANumber(tokens: seq<Token>, n: int)
    requires Spells(tokens, "NULL")
    ensures !Denotes(tokens, Number(n))
  {
    if Denotes(tokens, Number(n)) {
      var text :| Spells(tokens, text) && Text.ParseInt(text) == Text.Some(n);
      SpellsOnce(tokens, text, "NULL");
      NullIsNoNumber();
    }
  }

  lemma NullIsNoNumber()
    ensures Text.ParseInt("NULL") == Text.None
  {
    assert Text.TrimStart("NULL") == "NULL";
    assert Text.DigitPrefix("NULL") == "";
  }

  /** How many of the tokens are placeholders. */
  function MarkCount(tokens: seq<Token>): nat {
    if tokens == [] then 0
    else MarkCount(tokens[..|tokens| - 1]) + if tokens[|tokens| - 1] == Chr('?') then 1 else 0
  }

  function Concat(pieces: seq<seq<Token>>): seq<Token> {
    if pieces == [] then [] else pieces[0] + Concat(pieces[1..])
  }

  /** The i-th parameter; one that is missing is NULL. */
  function Param(params: seq<Value>, i: nat): Value {
    if i < |params| then params[i] else Null
  }

  /**
   A query means what its template and the parameters say: token by token it is the template, with the i-th
   placeholder replaced by something that denotes the i-th parameter.
   */
  ghost predicate PiecesMean(pieces: seq<seq<Token>>, template: seq<Token>, params: seq<Value>) {
    && |pieces| == |template|
    && forall k | 0 <= k < |template| ::
         if template[k] == Chr('?') then Denotes(pieces[k], Param(params, MarkCount(template[..k])))
         else pieces[k] == [template[k]]
  }

  ghost predicate Means(query: seq<Token>, template: seq<Token>, params: seq<Value>) {
    exists pieces :: PiecesMean(pieces, template, params) && query == Concat(pieces)
  }

  lemma {:induction false} MarkCountHead(t: Token, tokens: seq<Token>)
    ensures MarkCount([t] + tokens) == MarkCount(tokens) + if t == Chr('?') then 1 else 0
  {
    if tokens == [] {
      assert [t] + tokens == [t] && MarkCount([t][..0]) == 0;
    } else {
      var last := |tokens| - 1;
      assert ([t] + tokens)[..|tokens|] == [t] + tokens[..last];
      MarkCountHead(t, tokens[..last]);
    }
  }

  lemma RestParam(params: seq<Value>, i: nat)
    ensures Param(Rest(params), i) == Param(params, i + 1) && First(params) == Param(params, 0)
  {
  }

  /** One more token in front. */
  lemma PiecesStep(first: seq<Token>, pieces: seq<seq<Token>>, t: Token, rest: seq<Token>, params: seq<Value>)
    requires if t == Chr('?') then Denotes(first, First(params)) else first == [t]
    requires PiecesMean(pieces, rest, if t == Chr('?') then Rest(params) else params)
    ensures PiecesMean([first] + pieces, [t] + rest, params)
  {
    var template := [t] + rest;
    forall k | 0 <= k < |template|
      ensures var piece := ([first] + pieces)[k];
              if template[k] == Chr('?') then Denotes(piece, Param(params, MarkCount(template[..k])))
              else piece == [template[k]]
    {
      if k == 0 {
        RestParam(params, 0);
        assert template[..0] == [];
      } else {
        assert template[..k] == [t] + rest[..k - 1];
        MarkCountHead(t, rest[..k - 1]);
        RestParam(params, MarkCount(rest[..k - 1]));
      }
    }
  }

  lemma {:induction false} PlacedMeans(template: seq<Token>, params: seq<Value>) returns (pieces: seq<seq<Token>>)
    ensures PiecesMean(pieces, template, params) && Placed(template, params) == Concat(pieces)
    decreases |template|
  {
    if template == [] {
      pieces := [];
    } else {
      var t, rest := template[0], template[1..];
      assert template == [t] + rest;
      var mark := t == Chr('?');
      var first := if mark then ValueTokens(First(params)) else [t];
      ValueDenoted(First(params));
      var more := PlacedMeans(rest, if mark then Rest(params) else params);
      PiecesStep(first, more, t, rest, params);
      pieces := [first] + more;
      assert pieces[1..] == more;
    }
  }

  /** For a clean template the i-th placeholder is read as the i-th parameter, whatever its kind. */
  lemma ParametersArrive(sql: string, params: seq<Value>)
    requires CleanTemplate(sql) && params != []
    ensures Means(Lex(Interpolate(sql, params)), Lex(sql), params)
  {
    MeaningOutside(sql, params, false);
    var pieces := PlacedMeans(Lex(sql), params);
  }

  // ---------------------------------------------------------------------------
  // The replacing loop
  // ---------------------------------------------------------------------------

  lemma {:induction false} FillSplit(head: string, tail: string, params: seq<Value>, k: nat)
    requires k == |Marks(head)|
    ensures Fill(head + tail, params) == Fill(head, params) + Fill(tail, Drop(params, k))
    decreases |head|
  {
    if head == "" {
      assert head + tail == tail;
    } else {
      assert (head + tail)[1..] == head[1..] + tail;
      if head[0] == '?' {
        FillSplit(head[1..], tail, Rest(params), k - 1);
        RestDrop(params, k);
      } else {
        FillSplit(head[1..], tail, params, k);
      }
    }
  }

  lemma RestDrop(params: seq<Value>, k: nat)
    requires k > 0
    ensures Drop(Rest(params), k - 1) == Drop(params, k)
  {
  }

  /** The placeholders of a text. */
  function Marks(s: string): string {
    if s == "" then "" else (if s[0] == '?' then "?" else "") + Marks(s[1..])
  }

  lemma {:induction false} MarksSnoc(s: string, c: char)
    ensures Marks(s + [c]) == Marks(s) + if c == '?' then "?" else ""
  {
    if s == "" {
      assert s + [c] == [c];
    } else {
      assert (s + [c])[1..] == s[1..] + [c];
      MarksSnoc(s[1..], c);
    }
  }

  function Drop(params: seq<Value>, k: nat): seq<Value> {
    if k < |params| then params[k..] else []
  }

  /** The text that is sent, built by one pass that replaces each '?' by the next parameter. */
  method BuildQuery(sql: string, params: seq<Value>) returns (query: string)
    ensures query == Interpolate(sql, params)
    ensures params == [] ==> query == sql
    ensures params != [] && CleanTemplate(sql) ==> Means(Lex(query), Lex(sql), params)
  {
    query := sql;
    if |params| > 0 {
      var paramIndex := 0;
      query := "";
      for i := 0 to |sql|
        invariant paramIndex == |Marks(sql[..i])|
        invariant query == Fill(sql[..i], params)
      {
        Text.TakeSnoc(sql, i);
        MarksSnoc(sql[..i], sql[i]);
        FillSplit(sql[..i], [sql[i]], params, paramIndex);
        if sql[i] == '?' {
          var value := if paramIndex < |params| then params[paramIndex] else Null;
          query := query + Literal(value);
          paramIndex := paramIndex + 1;
        } else {
          query := query + [sql[i]];
        }
      }
      assert sql[..|sql|] == sql;
      if CleanTemplate(sql) {
        ParametersArrive(sql, params);
      }
    }
  }
}
