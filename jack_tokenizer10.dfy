/** The earlier Jack tokenizer of projects/10
    (projects/10/JackAnalyzer/jackTokenizer.js). It removes block comments
    with the same loop as the projects/11 one, but filters lines before
    trimming them, cuts a line only at its first space or at a leading
    quote, and escapes the three XML-reserved symbols in `symbol()`. */
module JackTokenizer10 {
  import opened Wrappers
  import opened Text
  import opened JackLexicon
  import T11 = JackTokenizer11

  // ---------------------------------------------------------------------
  // Lines

  /** The line filter: the line is not exactly empty and does not start
      with `//`, both looked at before trimming. */
  predicate IsKeptLine(line: string) {
    line != "" && !StartsWith(line, "//")
  }

  /** `lines.filter(...).map(...)`: each kept line cut at its first `//`
      and trimmed. */
  function CleanLines(lines: seq<string>): seq<string>
    decreases |lines|
  {
    if lines == [] then []
    else (if IsKeptLine(lines[0]) then [T11.CleanLine(lines[0])] else []) + CleanLines(lines[1..])
  }

  /** The filter keeps blank lines and indented `//` lines, which the
      projects/11 filter drops, but every such line cleans to the empty
      line and so yields no token. */
  lemma ExtraKeptLineIsEmpty(line: string)
    requires IsKeptLine(line) && !T11.IsKeptLine(line)
    ensures T11.CleanLine(line) == "" && LineTokens(T11.CleanLine(line)) == Some([])
  {
    if Trim(line) == "" {
      BlankLineCleansEmpty(line);
    } else {
      CommentLineCleansEmpty(line);
    }
  }

  lemma BlankLineCleansEmpty(line: string)
    requires Trim(line) == ""
    ensures T11.CleanLine(line) == ""
  {
    SpacesOfEmptyTrim(line);
    var b := BeforeFirst(line, "//");
    BeforeFirstSpec(line, "//");
    assert forall i :: 0 <= i < |b| ==> b[i] == line[i];
    TrimOfSpaces(b);
  }

  /** A line that starts with `//` once trimmed has only spaces before its
      first `//`. */
  lemma CommentLineCleansEmpty(line: string)
    requires StartsWith(Trim(line), "//")
    ensures T11.CleanLine(line) == ""
  {
    var t := TrimStart(line);
    var j := |line| - |t|;
    var r := TrimEnd(t);
    assert r[..2] == "//" && r == t[..|r|];
    assert line[j..j + 2] == t[..2];
    assert OccursAt(line, "//", j);
    IndexOfFinds(line, "//");
    var k := IndexOf(line, "//");
    assert 0 <= k <= j;
    var b := line[..k];
    assert forall i :: 0 <= i < |b| ==> b[i] == line[i];
    TrimOfSpaces(b);
  }

  // ---------------------------------------------------------------------
  // Cutting a line

  /** One pass of the `while (line)` loop: a leading string constant, or
      the unit before the first space cut at its symbols, or the whole line
      cut at its symbols; `None` for an opening quote that is never closed,
      where the loop pushes `""` and leaves the line as it was. */
  function LinePass(line: string): (r: Option<T11.Pass>)
    requires line != ""
    ensures r.Some? ==> |r.value.rest| < |line|
  {
    var spaceIndex := IndexOf(line, " ");
    if StartsWith(line, "\"") then
      var index := IndexFrom(line, "\"", 1);
      if index == -1 then None
      else Some(T11.Pass([line[..index + 1]], Trim(line[index + 1..])))
    else if spaceIndex != -1 then
      Some(T11.Pass(UnitTokens(line[..spaceIndex]), Trim(line[spaceIndex + 1..])))
    else Some(T11.Pass(UnitTokens(line), ""))
  }

  /** The tokens the `while (line)` loop pushes for one line, or `None` when
      the loop does not end. */
  function LineTokens(line: string): Option<seq<string>>
    decreases |line|
  {
    if line == "" then Some([])
    else
      var pass :- LinePass(line);
      var rest :- LineTokens(pass.rest);
      Some(pass.pushed + rest)
  }

  function LinesTokens(lines: seq<string>): Option<seq<string>>
    decreases |lines|
  {
    if lines == [] then Some([])
    else
      var first :- LineTokens(lines[0]);
      var rest :- LinesTokens(lines[1..]);
      Some(first + rest)
  }

  /** The token list the constructor builds from the file's text. */
  function Tokens(content: string): Option<seq<string>> {
    var c :- T11.StripBlockComments(content);
    LinesTokens(CleanLines(Split(c, "\n")))
  }

  /** One pass of the loop; the two symbol-splitting loops it holds are the
      loop `ParserUnit` models. */
  method PassLine(line: string) returns (pushed: seq<string>, rest: string)
    requires line != "" && LinePass(line).Some?
    ensures LinePass(line) == Some(T11.Pass(pushed, rest))
  {
    if StartsWith(line, "\"") {
      var index := IndexFrom(line, "\"", 1);
      pushed := [line[..index + 1]];
      rest := Trim(line[index + 1..]);
    } else if IndexOf(line, " ") != -1 {
      var index := IndexOf(line, " ");
      var unit := line[..index];
      rest := Trim(line[index + 1..]);
      pushed := T11.ParserUnit(unit);
    } else {
      pushed := T11.ParserUnit(line);
      rest := "";
    }
  }

  /** The `while (line)` loop over one cleaned line. */
  method TokenizeLine(line0: string) returns (pushed: seq<string>)
    requires LineTokens(line0).Some?
    ensures pushed == LineTokens(line0).value
  {
    var line := line0;
    pushed := [];
    while line != ""
      invariant LineTokens(line).Some? && pushed + LineTokens(line).value == LineTokens(line0).value
      decreases |line|
    {
      var now, rest := PassLine(line);
      assert LineTokens(line).value == now + LineTokens(rest).value;
      T11.AppendAssoc(pushed, now, LineTokens(rest).value);
      pushed := pushed + now;
      line := rest;
    }
  }

  /** `linesWithoutComments.forEach(...)`. */
  method TokenizeLines(lines: seq<string>) returns (ts: seq<string>)
    requires LinesTokens(lines).Some?
    ensures ts == LinesTokens(lines).value
  {
    ts := [];
    var i := 0;
    assert lines[0..] == lines && ts + LinesTokens(lines).value == LinesTokens(lines).value;
    while i < |lines|
      invariant 0 <= i <= |lines|
      invariant LinesTokens(lines[i..]).Some?
      invariant ts + LinesTokens(lines[i..]).value == LinesTokens(lines).value
    {
      assert lines[i..][1..] == lines[i + 1..];
      assert LinesTokens(lines[i..]).value == LineTokens(lines[i]).value + LinesTokens(lines[i + 1..]).value;
      var pushed := TokenizeLine(lines[i]);
      T11.AppendAssoc(ts, pushed, LinesTokens(lines[i + 1..]).value);
      ts := ts + pushed;
      i := i + 1;
    }
  }

  // ---------------------------------------------------------------------
  // Properties of the token list

  /** The quote branch. */
  lemma QuotePass(line: string, index: int)
    requires StartsWith(line, "\"") && IndexFrom(line, "\"", 1) == index
    ensures index == -1 ==> LinePass(line).None?
    ensures index != -1 ==> 1 <= index < |line|
    ensures index != -1 ==> LinePass(line) == Some(T11.Pass([line[..index + 1]], Trim(line[index + 1..])))
  {
    StartsWithIsIndexZero(line, "\"");
  }

  /** The quote branch pushes a string constant. */
  lemma QuotePassShape(line: string)
    requires line != "" && '\n' !in line && LinePass(line).Some? && StartsWith(line, "\"")
    ensures T11.IsShapedPass(LinePass(line).value)
  {
    var index := IndexFrom(line, "\"", 1);
    QuotePass(line, index);
    T11.QuotedPassShape(line, index);
  }

  /** The branch that cuts the unit before the first space. */
  lemma SpacePassShape(line: string)
    requires line != "" && '\n' !in line && !StartsWith(line, "\"") && IndexOf(line, " ") != -1
    ensures T11.IsShapedPass(LinePass(line).value)
  {
    var spaceIndex := IndexOf(line, " ");
    IndexOfChar(line, ' ');
    assert LinePass(line) == Some(T11.Pass(UnitTokens(line[..spaceIndex]), Trim(line[spaceIndex + 1..])));
    CutPassShape(line[..spaceIndex], line[spaceIndex + 1..]);
  }

  /** A space-free unit and a rest without line breaks make a shaped pass. */
  lemma CutPassShape(unit: string, rest: string)
    requires ' ' !in unit && '\n' !in rest
    ensures T11.IsShapedPass(T11.Pass(UnitTokens(unit), Trim(rest)))
  {
    T11.UnitLineTokens(unit);
    TrimAvoids(rest, '\n');
  }

  /** The branch that cuts the whole space-free line. */
  lemma WholePassShape(line: string)
    requires line != "" && '\n' !in line && !StartsWith(line, "\"") && IndexOf(line, " ") == -1
    ensures T11.IsShapedPass(LinePass(line).value)
  {
    IndexOfChar(line, ' ');
    T11.UnitLineTokens(line);
    assert LinePass(line) == Some(T11.Pass(UnitTokens(line), ""));
  }

  /** One pass pushes line tokens and leaves a line without line breaks. */
  lemma PassShape(line: string)
    requires line != "" && '\n' !in line && LinePass(line).Some?
    ensures T11.IsShapedPass(LinePass(line).value)
  {
    if StartsWith(line, "\"") {
      QuotePassShape(line);
    } else if IndexOf(line, " ") != -1 {
      SpacePassShape(line);
    } else {
      WholePassShape(line);
    }
  }

  lemma {:induction false} LineTokensShape(line: string)
    requires '\n' !in line && LineTokens(line).Some?
    ensures forall t :: t in LineTokens(line).value ==> T11.IsLineToken(t)
    decreases |line|
  {
    if line != "" {
      var pass := LinePass(line).value;
      PassShape(line);
      LineTokensShape(pass.rest);
    }
  }

  lemma {:induction false} LinesTokensShape(lines: seq<string>)
    requires forall i :: 0 <= i < |lines| ==> '\n' !in lines[i]
    requires LinesTokens(lines).Some?
    ensures forall t :: t in LinesTokens(lines).value ==> T11.IsLineToken(t)
    decreases |lines|
  {
    if lines != [] {
      LineTokensShape(lines[0]);
      LinesTokensShape(lines[1..]);
    }
  }

  lemma {:induction false} CleanLinesAvoid(lines: seq<string>, c: char)
    requires forall x :: x in lines ==> c !in x
    ensures forall x :: x in CleanLines(lines) ==> c !in x
    decreases |lines|
  {
    if lines != [] {
      var k := IndexOf(lines[0], "//");
      assert lines[0] in lines;
      assert c !in BeforeFirst(lines[0], "//") by {
        if k != -1 {
          assert c !in lines[0][..k];
        }
      }
      TrimAvoids(BeforeFirst(lines[0], "//"), c);
      CleanLinesAvoid(lines[1..], c);
    }
  }

  /** Every token of a file is a string constant, a symbol, or a run without
      symbols or spaces. */
  lemma TokensShape(content: string)
    requires Tokens(content).Some?
    ensures forall t :: t in Tokens(content).value ==> T11.IsLineToken(t)
  {
    var c := T11.StripBlockComments(content).value;
    var raw := Split(c, "\n");
    SplitPiecesLackSeparator(c, '\n');
    CleanLinesAvoid(raw, '\n');
    LinesTokensShape(CleanLines(raw));
  }

  // ---------------------------------------------------------------------
  // A string constant that does not start the line

  /** A string constant holding a space that comes after other text on the
      line is cut at that space: with the line `u"a b` (no quote nor space
      in `u`, no space in `a`) the first pass cuts `u"a` at its symbols, as
      if the quote were an identifier character, and goes on with `b`. No
      token of that pass holds a space, so `"a b"` is not one of them:
      `printString("a b")` yields `printString`, `(`, `"a`, then `b"`, `)`. */
  lemma SpacedStringSplit(u: string, a: string, b: string)
    requires u != "" && '"' !in u && ' ' !in u && ' ' !in a
    ensures var line := u + "\"" + a + " " + b;
      && LinePass(line) == Some(T11.Pass(UnitTokens(u + "\"" + a), Trim(b)))
      && forall t :: t in UnitTokens(u + "\"" + a) ==> ' ' !in t
  {
    var p := u + "\"" + a;
    assert p[0] == u[0] && ' ' !in p;
    SpacePass(p, b);
    T11.UnitTokensAvoid(p, ' ');
  }

  /** A line whose first space ends a run that does not start with a quote
      takes the space branch. */
  lemma SpacePass(p: string, b: string)
    requires p != "" && p[0] != '"' && ' ' !in p
    ensures LinePass(p + " " + b) == Some(T11.Pass(UnitTokens(p), Trim(b)))
  {
    var line := p + " " + b;
    assert line[0] == p[0];
    StartsWithIsIndexZero(line, "\"");
    assert line[..1][0] == line[0];
    IndexOfChar(line, ' ');
    assert line[|p|] == ' ' && line[..|p|] == p;
    assert IndexOf(line, " ") == |p|;
    assert line[|p| + 1..] == b;
  }

  // ---------------------------------------------------------------------
  // The cursor

  /** `symbol()`: the symbol, escaped for XML, when `tokenType` gives a
      symbol; `undefined` for any other type; the exception of `tokenType`
      when it throws. */
  function SymbolOf(token: Option<string>): (r: Result<Option<string>>)
    ensures r.Err? <==> TokenTypeOf(token).Err?
    ensures r.Ok? && r.value.Some? <==> TokenTypeOf(token) == Ok(JackLexicon.Symbol)
    ensures r.Ok? && r.value.Some? ==> IsSymbol(token.value) && Unescape(r.value.value) == token.value
    ensures r.Ok? && r.value.Some? ==> '<' !in r.value.value && '>' !in r.value.value
  {
    var found :- TokenTypeOf(token);
    if found == JackLexicon.Symbol then
      TokenTypeSpec(token);
      EscapeReadsBack(token.value);
      Ok(Some(Escape(token.value)))
    else Ok(None)
  }

  /** `JackTokenizer`: the token list and a cursor over it. */
  class Tokenizer {
    const tokens: seq<string>
    var tokenCounter: nat
    var currentToken: Option<string>

    ghost predicate Valid()
      reads this
    {
      tokenCounter <= |tokens| && currentToken == TokenAt(tokens, tokenCounter)
    }

    constructor (content: string)
      requires Tokens(content).Some?
      ensures tokens == Tokens(content).value
      ensures tokenCounter == 0 && Valid()
    {
      var fileContent := T11.RemoveBlockComments(content);
      var lines := CleanLines(Split(fileContent, "\n"));
      assert Tokens(content) == LinesTokens(lines);
      var ts := TokenizeLines(lines);
      tokens := ts;
      tokenCounter := 0;
      currentToken := TokenAt(ts, 0);
    }

    predicate HasMoreTokens()
      reads this
      ensures Valid() ==> (HasMoreTokens() <==> currentToken.Some?)
    {
      |tokens| > tokenCounter
    }

    /** `advance`: one token on while there are tokens left, a no-op
        otherwise. */
    method Advance()
      modifies this
      ensures old(HasMoreTokens()) ==> tokenCounter == old(tokenCounter) + 1
      ensures !old(HasMoreTokens()) ==> tokenCounter == old(tokenCounter) && currentToken == old(currentToken)
      ensures old(HasMoreTokens()) ==> currentToken == TokenAt(tokens, tokenCounter)
      ensures old(Valid()) ==> Valid()
    {
      if !HasMoreTokens() {
        return;
      }
      tokenCounter := tokenCounter + 1;
      currentToken := TokenAt(tokens, tokenCounter);
    }

    /** `tokenType`: the class of the current token, taken in the order
        keyword, symbol, integer, identifier, string; past the last token,
        or on a text of no class, it throws. */
    function TokenType(): (r: Result<TokenType>)
      reads this
      ensures Valid() && !HasMoreTokens() ==> r == Err(UndefinedTokenMessage)
      ensures r == Ok(Keyword) <==> currentToken.Some? && IsKeyword(currentToken.value)
      ensures r == Ok(JackLexicon.Symbol) ==> currentToken.Some? && IsSymbol(currentToken.value)
      ensures r == Ok(IntConst) ==> currentToken.Some? && IsIntegerConstant(currentToken.value)
      ensures r == Ok(JackLexicon.Identifier) ==> currentToken.Some? && IsIdentifierText(currentToken.value) && !IsKeyword(currentToken.value)
      ensures r == Ok(StringConst) ==> currentToken.Some? && IsStringConstant(currentToken.value)
      ensures r.Err? <==> currentToken.None? || !IsToken(currentToken.value)
    {
      TokenTypeOf(currentToken)
    }

    function KeyWord(): (r: Result<Option<string>>)
      reads this
      ensures r.Err? <==> TokenType().Err?
      ensures r == Ok(currentToken) <==> TokenType() == Ok(Keyword)
      ensures r == Ok(None) <==> TokenType().Ok? && TokenType() != Ok(Keyword)
    {
      TokenIfSpec(currentToken, Keyword);
      TokenIf(currentToken, Keyword)
    }

    function Symbol(): (r: Result<Option<string>>)
      reads this
      ensures r.Err? <==> TokenType().Err?
      ensures r.Ok? && r.value.Some? <==> TokenType() == Ok(JackLexicon.Symbol)
      ensures r.Ok? && r.value.Some? ==> Unescape(r.value.value) == currentToken.value
    {
      SymbolOf(currentToken)
    }

    function Identifier(): (r: Result<Option<string>>)
      reads this
      ensures r.Err? <==> TokenType().Err?
      ensures r == Ok(currentToken) <==> TokenType() == Ok(JackLexicon.Identifier)
      ensures r == Ok(None) <==> TokenType().Ok? && TokenType() != Ok(JackLexicon.Identifier)
    {
      TokenIfSpec(currentToken, JackLexicon.Identifier);
      TokenIf(currentToken, JackLexicon.Identifier)
    }

    function IntVal(): (r: Result<Option<string>>)
      reads this
      ensures r.Err? <==> TokenType().Err?
      ensures r == Ok(currentToken) <==> TokenType() == Ok(IntConst)
      ensures r == Ok(None) <==> TokenType().Ok? && TokenType() != Ok(IntConst)
    {
      TokenIfSpec(currentToken, IntConst);
      TokenIf(currentToken, IntConst)
    }

    function StringVal(): (r: Result<Option<string>>)
      reads this
      ensures r.Err? <==> TokenType().Err?
      ensures r.Ok? && r.value.Some? <==> TokenType() == Ok(StringConst)
      ensures r.Ok? && r.value.Some? ==> currentToken.value == "\"" + r.value.value + "\""
    {
      StringValOf(currentToken)
    }
  }
}
