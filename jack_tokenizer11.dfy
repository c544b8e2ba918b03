/** The Jack tokenizer of projects/11 (projects/11/JackAnalyzer/jackTokenizer.js),
    which both compilation engines read from. Its constructor drops block
    comments, blank and `//` lines and trailing comments, then cuts every
    line into tokens; a cursor then walks the token list. */
module JackTokenizer11 {
  import opened Wrappers
  import opened Text
  import opened JackLexicon

  // ---------------------------------------------------------------------
  // Block comments

  /** One pass of the comment loop: the text before the first comment
      opener (slash, star) joined to the text after the first closer (star,
      slash), or after the second character when there is no closer, as
      `slice(-1 + 2)` does. */
  function CutComment(c: string): string
    requires Contains(c, "/*")
  {
    c[..IndexOf(c, "/*")] + c[IndexOf(c, "*/") + 2..]
  }

  /** A pass shortens the text exactly when the first closer does not end
      before the first opener starts. */
  predicate PassShortens(c: string)
    requires Contains(c, "/*")
  {
    IndexOf(c, "*/") + 2 > IndexOf(c, "/*")
  }

  /** The text the comment loop leaves, or `None` when some pass does not
      shorten the text (an unclosed comment, or a closer before the first
      opener), where the loop is not known to end. */
  function StripBlockComments(c: string): (r: Option<string>)
    ensures r.Some? ==> !Contains(r.value, "/*")
    decreases |c|
  {
    if !Contains(c, "/*") then Some(c)
    else if !PassShortens(c) then None
    else StripBlockComments(CutComment(c))
  }

  /** The loop that runs while the text holds a comment opener. */
  method RemoveBlockComments(content: string) returns (fileContent: string)
    requires StripBlockComments(content).Some?
    ensures fileContent == StripBlockComments(content).value
    ensures !Contains(fileContent, "/*")
  {
    fileContent := content;
    while IndexOf(fileContent, "/*") != -1
      invariant StripBlockComments(fileContent) == StripBlockComments(content)
      decreases |fileContent|
    {
      var index := IndexOf(fileContent, "/*");
      var index2 := IndexOf(fileContent, "*/");
      fileContent := fileContent[..index] + fileContent[index2 + 2..];
    }
  }

  // ---------------------------------------------------------------------
  // Lines

  /** The line filter: not blank and not a `//` line once trimmed. */
  predicate IsKeptLine(line: string) {
    Trim(line) != "" && !StartsWith(Trim(line), "//")
  }

  /** A kept line cut at its first `//` and trimmed. */
  function CleanLine(line: string): string {
    Trim(BeforeFirst(line, "//"))
  }

  /** `lines.filter(...).map(...)`. */
  function CleanLines(lines: seq<string>): seq<string>
    decreases |lines|
  {
    if lines == [] then []
    else (if IsKeptLine(lines[0]) then [CleanLine(lines[0])] else []) + CleanLines(lines[1..])
  }

  // ---------------------------------------------------------------------
  // Cutting a line

  /** One pass of the `while (line)` loop: the tokens it pushes and the
      line it leaves, or `None` when the line opens a `"` it never closes,
      where the pass pushes `""` and leaves the line as it was. */
  datatype Pass = Pass(pushed: seq<string>, rest: string)

  function LinePass(line: string): (r: Option<Pass>)
    requires line != ""
    ensures r.Some? ==> |r.value.rest| < |line|
  {
    var doubleQuoteIndex := IndexOf(line, "\"");
    var spaceIndex := IndexOf(line, " ");
    StartsWithIsIndexZero(line, "\"");
    if StartsWith(line, "\"") then
      var index := IndexFrom(line, "\"", 1);
      if index == -1 then None
      else Some(Pass([line[..index + 1]], Trim(line[index + 1..])))
    else if doubleQuoteIndex != -1 && spaceIndex != -1 && doubleQuoteIndex < spaceIndex then
      Some(Pass(UnitTokens(line[..doubleQuoteIndex]), Trim(line[doubleQuoteIndex..])))
    else if spaceIndex != -1 then
      Some(Pass(UnitTokens(line[..spaceIndex]), Trim(line[spaceIndex + 1..])))
    else Some(Pass(UnitTokens(line), ""))
  }

  /** The tokens the `while (line)` loop pushes for one line, or `None` when
      the loop does not end. */
  function LineTokens(line: string): Option<seq<string>>
    decreases |line|
  {
    if line == "" then Some([])
    else
      var pass :- LinePass(line);
      var rest :- LineTokens(pass.rest);
      Some(pass.pushed + rest)
  }

  /** The tokens of all lines, in order. */
  function LinesTokens(lines: seq<string>): Option<seq<string>>
    decreases |lines|
  {
    if lines == [] then Some([])
    else
      var first :- LineTokens(lines[0]);
      var rest :- LinesTokens(lines[1..]);
      Some(first + rest)
  }

  /** The token list the constructor builds from the file's text. */
  function Tokens(content: string): Option<seq<string>> {
    var c :- StripBlockComments(content);
    LinesTokens(CleanLines(Split(c, "\n")))
  }

  /** What the loop pushes before it moves past the first symbol, followed
      by the tokens of the rest, are the tokens of the unit. */
  lemma PushedHead(before: seq<string>, unit: string, pushed: seq<string>)
    requires SymbolIndex(unit) >= 0
    requires var k := SymbolIndex(unit);
      pushed == (if k != 0 then before + [unit[..k]] else before) + [unit[k..k + 1]]
    ensures pushed + UnitTokens(unit[SymbolIndex(unit) + 1..]) == before + UnitTokens(unit)
  {
    var k := SymbolIndex(unit);
    var rest := UnitTokens(unit[k + 1..]);
    assert UnitTokens(unit) == HeadTokens(unit, k) + rest by {
      HeadTokensSpec(unit);
    }
    if k != 0 {
      AppendTwo(before, unit[..k], unit[k..k + 1], rest);
    } else {
      AppendOne(before, unit[k..k + 1], rest);
    }
  }

  lemma AppendAssoc(a: seq<string>, b: seq<string>, c: seq<string>)
    ensures (a + b) + c == a + (b + c)
  {
  }

  lemma AppendTwo(before: seq<string>, a: string, b: string, rest: seq<string>)
    ensures before + [a] + [b] + rest == before + (([a] + [b]) + rest)
  {
  }

  lemma AppendOne(before: seq<string>, b: string, rest: seq<string>)
    ensures before + [b] + rest == before + (([] + [b]) + rest)
  {
  }

  /** `parserUnit`: the symbol-splitting loop over one space-free unit. */
  method ParserUnit(unit0: string) returns (pushed: seq<string>)
    ensures pushed == UnitTokens(unit0)
  {
    var unit := unit0;
    pushed := [];
    while unit != ""
      invariant pushed + UnitTokens(unit) == UnitTokens(unit0)
      decreases |unit|
    {
      var index := SymbolIndex(unit);
      if index != -1 {
        ghost var before, u := pushed, unit;
        if index != 0 {
          pushed := pushed + [unit[..index]];
        }
        pushed := pushed + [unit[index..index + 1]];
        unit := unit[index + 1..];
        PushedHead(before, u, pushed);
      } else {
        pushed := pushed + [unit];
        unit := "";
      }
    }
  }

  /** One pass of the `while (line)` loop over one cleaned line. */
  method PassLine(line: string) returns (pushed: seq<string>, rest: string)
    requires line != "" && LinePass(line).Some?
    ensures LinePass(line) == Some(Pass(pushed, rest))
  {
    var doubleQuoteIndex := IndexOf(line, "\"");
    var spaceIndex := IndexOf(line, " ");
    StartsWithIsIndexZero(line, "\"");
    if StartsWith(line, "\"") {
      var index := IndexFrom(line, "\"", 1);
      pushed := [line[..index + 1]];
      rest := Trim(line[index + 1..]);
    } else if doubleQuoteIndex != -1 && spaceIndex != -1 && doubleQuoteIndex < spaceIndex {
      pushed := ParserUnit(line[..doubleQuoteIndex]);
      rest := Trim(line[doubleQuoteIndex..]);
    } else if spaceIndex != -1 {
      pushed := ParserUnit(line[..spaceIndex]);
      rest := Trim(line[spaceIndex + 1..]);
    } else {
      pushed := ParserUnit(line);
      rest := "";
    }
  }

  /** The `while (line)` loop over one cleaned line. */
  method TokenizeLine(line0: string) returns (pushed: seq<string>)
    requires LineTokens(line0).Some?
    ensures pushed == LineTokens(line0).value
  {
    var line := line0;
    pushed := [];
    while line != ""
      invariant LineTokens(line).Some? && pushed + LineTokens(line).value == LineTokens(line0).value
      decreases |line|
    {
      var now, rest := PassLine(line);
      assert LineTokens(line).value == now + LineTokens(rest).value;
      AppendAssoc(pushed, now, LineTokens(rest).value);
      pushed := pushed + now;
      line := rest;
    }
  }

  /** `linesWithoutComments.forEach(...)`: the loop over all lines. */
  method TokenizeLines(lines: seq<string>) returns (ts: seq<string>)
    requires LinesTokens(lines).Some?
    ensures ts == LinesTokens(lines).value
  {
    ts := [];
    var i := 0;
    assert lines[0..] == lines && ts + LinesTokens(lines).value == LinesTokens(lines).value;
    while i < |lines|
      invariant 0 <= i <= |lines|
      invariant LinesTokens(lines[i..]).Some?
      invariant ts + LinesTokens(lines[i..]).value == LinesTokens(lines).value
    {
      assert lines[i..][1..] == lines[i + 1..];
      assert LinesTokens(lines[i..]).value == LineTokens(lines[i]).value + LinesTokens(lines[i + 1..]).value;
      var pushed := TokenizeLine(lines[i]);
      AppendAssoc(ts, pushed, LinesTokens(lines[i + 1..]).value);
      ts := ts + pushed;
      i := i + 1;
    }
  }

  // ---------------------------------------------------------------------
  // Properties of the token list

  /** A pass of the comment loop removes the first comment, opener and closer
      included, provided no opener comes before it and no closer inside it
      (the loop looks for the first closer in the whole text, not the first
      one after the opener). */
  lemma CommentRemoved(a: string, x: string, b: string)
    requires !Contains(a, "/*") && !Contains(a + "/*" + x, "*/")
    ensures Contains(a + "/*" + x + "*/" + b, "/*")
    ensures StripBlockComments(a + "/*" + x + "*/" + b) == StripBlockComments(a + b)
  {
    var s := a + "/*" + x + "*/" + b;
    var q := "/*" + x + "*/" + b;
    assert s == a + q && q[..2] == "/*";
    IndexOfAfter(a, "/*", q);
    var p := a + "/*" + x;
    assert s == p + ("*/" + b) && ("*/" + b)[..2] == "*/";
    IndexOfAfter(p, "*/", "*/" + b);
    assert s[..|a|] == a && s[|p| + 2..] == b;
    assert CutComment(s) == a + b;
  }

  /** The tokens a line can yield: a string constant cut by the quote
      branch, or a symbol or a symbol-free run that holds no space. */
  predicate IsLineToken(t: string) {
    IsStringConstant(t) || (IsUnitToken(t) && ' ' !in t)
  }

  /** The tokens of a unit hold no character the unit does not hold. */
  lemma {:induction false} UnitTokensAvoid(unit: string, c: char)
    requires c !in unit
    ensures forall t :: t in UnitTokens(unit) ==> c !in t
    decreases |unit|
  {
    if unit != "" {
      var k := SymbolIndex(unit);
      if k != -1 {
        HeadTokensSpec(unit);
        var head, rest := HeadTokens(unit, k), UnitTokens(unit[k + 1..]);
        assert c !in unit[..k] && c !in unit[k..k + 1] && c !in unit[k + 1..];
        UnitTokensAvoid(unit[k + 1..], c);
        forall t | t in head + rest
          ensures c !in t
        {
          if t !in rest {
            assert t in head;
            assert t == unit[..k] || t == unit[k..k + 1];
          }
        }
      }
    }
  }

  /** A space-free unit yields line tokens. */
  lemma UnitLineTokens(unit: string)
    requires ' ' !in unit
    ensures forall t :: t in UnitTokens(unit) ==> IsLineToken(t)
  {
    UnitTokensSpec(unit);
    UnitTokensAvoid(unit, ' ');
  }

  /** The quote branch cuts a string constant. */
  lemma QuotedToken(line: string, index: int)
    requires '\n' !in line && StartsWith(line, "\"") && index == IndexFrom(line, "\"", 1)
    ensures index == -1 || (1 <= index < |line| && IsLineToken(line[..index + 1]))
  {
    IndexFromChar(line, '"', 1);
    if index != -1 {
      var t := line[..index + 1];
      assert t[0] == line[..1][0] == '"';
      assert t[1..|t| - 1] == line[1..index];
      StringConstantOf(t);
    }
  }

  /** A pass that pushes line tokens and leaves no line break. */
  predicate IsShapedPass(pass: Pass) {
    (forall t :: t in pass.pushed ==> IsLineToken(t)) && '\n' !in pass.rest
  }

  /** The quote branch pushes a string constant. */
  lemma QuotePassShape(line: string)
    requires line != "" && '\n' !in line && LinePass(line).Some? && StartsWith(line, "\"")
    ensures IsShapedPass(LinePass(line).value)
  {
    var index := IndexFrom(line, "\"", 1);
    QuotePass(line, index);
    QuotedPassShape(line, index);
  }

  /** The pass the quote branch makes is shaped. */
  lemma QuotedPassShape(line: string, index: int)
    requires '\n' !in line && StartsWith(line, "\"") && index == IndexFrom(line, "\"", 1) && 0 <= index < |line|
    ensures IsShapedPass(Pass([line[..index + 1]], Trim(line[index + 1..])))
  {
    QuotedToken(line, index);
    TrimAvoids(line[index + 1..], '\n');
  }

  /** The branch that cuts the unit before the first quote. */
  lemma QuoteUnitPassShape(line: string)
    requires line != "" && '\n' !in line && !StartsWith(line, "\"")
    requires IndexOf(line, "\"") != -1 && IndexOf(line, " ") != -1 && IndexOf(line, "\"") < IndexOf(line, " ")
    ensures IsShapedPass(LinePass(line).value)
  {
    var doubleQuoteIndex := IndexOf(line, "\"");
    var spaceIndex := IndexOf(line, " ");
    IndexOfChar(line, ' ');
    var unit := line[..doubleQuoteIndex];
    assert unit == line[..spaceIndex][..doubleQuoteIndex];
    UnitLineTokens(unit);
    TrimAvoids(line[doubleQuoteIndex..], '\n');
    var pass := Pass(UnitTokens(unit), Trim(line[doubleQuoteIndex..]));
    assert LinePass(line) == Some(pass);
    assert IsShapedPass(pass);
  }

  /** The branch that cuts the unit before the first space. */
  lemma SpaceUnitPassShape(line: string)
    requires line != "" && '\n' !in line && !StartsWith(line, "\"")
    requires IndexOf(line, " ") != -1
    requires !(IndexOf(line, "\"") != -1 && IndexOf(line, "\"") < IndexOf(line, " "))
    ensures IsShapedPass(LinePass(line).value)
  {
    var spaceIndex := IndexOf(line, " ");
    IndexOfChar(line, ' ');
    var unit := line[..spaceIndex];
    UnitLineTokens(unit);
    TrimAvoids(line[spaceIndex + 1..], '\n');
    var pass := Pass(UnitTokens(unit), Trim(line[spaceIndex + 1..]));
    assert LinePass(line) == Some(pass);
    assert IsShapedPass(pass);
  }

  /** One pass pushes line tokens and leaves a line without line breaks. */
  lemma PassShape(line: string)
    requires line != "" && '\n' !in line && LinePass(line).Some?
    ensures IsShapedPass(LinePass(line).value)
  {
    if StartsWith(line, "\"") {
      QuotePassShape(line);
    } else if IndexOf(line, "\"") != -1 && IndexOf(line, " ") != -1 && IndexOf(line, "\"") < IndexOf(line, " ") {
      QuoteUnitPassShape(line);
    } else if IndexOf(line, " ") != -1 {
      SpaceUnitPassShape(line);
    } else {
      IndexOfChar(line, ' ');
      UnitLineTokens(line);
      StartsWithIsIndexZero(line, "\"");
      assert LinePass(line) == Some(Pass(UnitTokens(line), ""));
    }
  }

  /** Every token of a line without line breaks is a line token. */
  lemma {:induction false} LineTokensShape(line: string)
    requires '\n' !in line && LineTokens(line).Some?
    ensures forall t :: t in LineTokens(line).value ==> IsLineToken(t)
    decreases |line|
  {
    if line != "" {
      var pass := LinePass(line).value;
      PassShape(line);
      LineTokensShape(pass.rest);
    }
  }

  /** Every token of a list of such lines is a line token. */
  lemma {:induction false} LinesTokensShape(lines: seq<string>)
    requires forall i :: 0 <= i < |lines| ==> '\n' !in lines[i]
    requires LinesTokens(lines).Some?
    ensures forall t :: t in LinesTokens(lines).value ==> IsLineToken(t)
    decreases |lines|
  {
    if lines != [] {
      LineTokensShape(lines[0]);
      LinesTokensShape(lines[1..]);
    }
  }

  /** Cleaned lines hold no line break when the raw lines hold none. */
  lemma {:induction false} CleanLinesAvoid(lines: seq<string>, c: char)
    requires forall x :: x in lines ==> c !in x
    ensures forall x :: x in CleanLines(lines) ==> c !in x
    decreases |lines|
  {
    if lines != [] {
      var k := IndexOf(lines[0], "//");
      assert lines[0] in lines;
      assert c !in BeforeFirst(lines[0], "//") by {
        if k != -1 {
          assert c !in lines[0][..k];
        }
      }
      TrimAvoids(BeforeFirst(lines[0], "//"), c);
      CleanLinesAvoid(lines[1..], c);
    }
  }

  /** Every token of a file is a string constant, a symbol, or a run without
      symbols or spaces. */
  lemma TokensShape(content: string)
    requires Tokens(content).Some?
    ensures forall t :: t in Tokens(content).value ==> IsLineToken(t)
  {
    var c := StripBlockComments(content).value;
    var raw := Split(c, "\n");
    SplitPiecesLackSeparator(c, '\n');
    CleanLinesAvoid(raw, '\n');
    LinesTokensShape(CleanLines(raw));
  }

  // ---------------------------------------------------------------------
  // A string constant with no space after it

  /** A line without spaces that does not start with a quote takes the last
      branch of the loop and is cut at its symbols as a whole, string
      constants included: `f("a.b");` gives `"a`, `.` and `b"`. No token of
      such a line is a string constant holding a symbol. */
  lemma SpaceFreeLineSplitsStrings(line: string)
    requires line != "" && ' ' !in line && line[0] != '"'
    ensures LineTokens(line) == Some(UnitTokens(line))
    ensures forall t :: t in LineTokens(line).value ==> !(IsStringConstant(t) && !HasNoSymbol(t))
  {
    IndexOfChar(line, ' ');
    StartsWithIsIndexZero(line, "\"");
    assert !StartsWith(line, "\"");
    assert LinePass(line) == Some(Pass(UnitTokens(line), ""));
    assert UnitTokens(line) + [] == UnitTokens(line);
    UnitTokensSpec(line);
  }

  /** The loop pass the branch conditions evidently intend: a line holding a
      quote but no space is cut before the quote, like a line whose first
      quote comes before its first space. */
  function LinePassIntended(line: string): (r: Option<Pass>)
    requires line != ""
    ensures r.Some? ==> |r.value.rest| < |line|
  {
    var doubleQuoteIndex := IndexOf(line, "\"");
    var spaceIndex := IndexOf(line, " ");
    StartsWithIsIndexZero(line, "\"");
    if !StartsWith(line, "\"") && doubleQuoteIndex != -1 && spaceIndex == -1 then
      Some(Pass(UnitTokens(line[..doubleQuoteIndex]), Trim(line[doubleQuoteIndex..])))
    else LinePass(line)
  }

  /** The tokens of one line under the intended pass. */
  function LineTokensIntended(line: string): Option<seq<string>>
    decreases |line|
  {
    if line == "" then Some([])
    else
      var pass :- LinePassIntended(line);
      var rest :- LineTokensIntended(pass.rest);
      Some(pass.pushed + rest)
  }

  /** Under the intended pass, a string constant after a non-empty run
      without quotes or spaces is one token (at the head of a line it is one
      already, as `QuoteFirst` states), whatever it holds and whether or not a space
      follows it. */
  lemma IntendedKeepsStringConstant(u: string, body: string, rest: string)
    requires u != "" && '"' !in u && ' ' !in u && '"' !in body
    requires rest == "" || !IsJsSpace(rest[|rest| - 1])
    ensures var line, tail := u + "\"" + body + "\"" + rest, LineTokensIntended(Trim(rest));
      && (tail.None? ==> LineTokensIntended(line).None?)
      && (tail.Some? ==> LineTokensIntended(line) == Some(UnitTokens(u) + ["\"" + body + "\""] + tail.value))
  {
    var q := "\"" + body + "\"";
    var line := u + "\"" + body + "\"" + rest;
    StringAfterUnitPass(u, body, rest);
    QuoteFirst(body, rest);
    TokensAfterPass(line, Pass(UnitTokens(u), q + rest));
    var tail := LineTokensIntended(Trim(rest));
    if tail.Some? {
      assert UnitTokens(u) + ([q] + tail.value) == UnitTokens(u) + [q] + tail.value;
    }
  }

  /** The first intended pass over such a line pushes the tokens of the run
      and leaves the line from its string constant on. */
  lemma StringAfterUnitPass(u: string, body: string, rest: string)
    requires u != "" && '"' !in u && ' ' !in u
    requires rest == "" || !IsJsSpace(rest[|rest| - 1])
    ensures var line := u + "\"" + body + "\"" + rest;
      line != "" && LinePassIntended(line) == Some(Pass(UnitTokens(u), "\"" + body + "\"" + rest))
  {
    QuoteAfterUnit(u, body, rest);
    UnitBeforeQuotePass(u, "\"" + body + "\"" + rest);
  }

  /** A line made of a run, a string constant and a rest is the run followed
      by a trimmed text that starts with the quote. */
  lemma QuoteAfterUnit(u: string, body: string, rest: string)
    requires rest == "" || !IsJsSpace(rest[|rest| - 1])
    ensures var qr := "\"" + body + "\"" + rest;
      u + "\"" + body + "\"" + rest == u + qr && qr[0] == '"' && Trim(qr) == qr
  {
    var q := "\"" + body + "\"";
    var qr := q + rest;
    assert u + "\"" + body + "\"" + rest == u + qr by {
      assert u + "\"" + body == u + ("\"" + body);
      assert u + "\"" + body + "\"" == u + q;
      assert u + q + rest == u + qr;
    }
    assert qr[0] == '"' && qr[|qr| - 1] == (if rest == "" then '"' else rest[|rest| - 1]);
    TrimUnchanged(qr);
  }

  /** The tokens of a line are those of its first pass, then those of the
      rest of the line. */
  lemma TokensAfterPass(line: string, pass: Pass)
    requires line != "" && LinePassIntended(line) == Some(pass)
    ensures LineTokensIntended(line) == (var r :- LineTokensIntended(pass.rest); Some(pass.pushed + r))
  {
  }

  /** The intended pass over a run without quotes or spaces followed by a
      trimmed text that starts with a quote. */
  lemma UnitBeforeQuotePass(u: string, qr: string)
    requires u != "" && '"' !in u && ' ' !in u
    requires qr != "" && qr[0] == '"' && Trim(qr) == qr
    ensures LinePassIntended(u + qr) == Some(Pass(UnitTokens(u), qr))
  {
    var line := u + qr;
    IndexOfChar(line, '"');
    IndexOfChar(line, ' ');
    StartsWithIsIndexZero(line, "\"");
    assert line[|u|] == '"' && line[0] == u[0];
    assert line[..|u|] == u;
    var dq := IndexOf(line, "\"");
    assert dq == |u|;
    var sp := IndexOf(line, " ");
    assert sp == -1 || sp > dq;
    assert line[..dq] == u && line[dq..] == qr;
  }

  /** A line that starts with a string constant yields it first. */
  lemma QuoteFirst(body: string, rest: string)
    requires '"' !in body
    requires rest == "" || !IsJsSpace(rest[|rest| - 1])
    ensures var q := "\"" + body + "\"";
      LineTokensIntended(q + rest) == (var tail :- LineTokensIntended(Trim(rest)); Some([q] + tail))
  {
    var q := "\"" + body + "\"";
    var line := q + rest;
    ClosingQuote(body, rest);
    QuotePass(line, |q| - 1);
    IntendedOnQuote(line);
    assert line[..|q|] == q && line[|q|..] == rest;
  }

  /** The closing quote of a string constant at the head of a line is the
      first quote after its opening one. */
  lemma ClosingQuote(body: string, rest: string)
    requires '"' !in body
    ensures var line := "\"" + body + "\"" + rest;
      StartsWith(line, "\"") && IndexFrom(line, "\"", 1) == |body| + 1
  {
    var line := "\"" + body + "\"" + rest;
    assert line[..1] == "\"";
    IndexFromChar(line, '"', 1);
    var index := IndexFrom(line, "\"", 1);
    assert line[|body| + 1] == '"';

  }

  /** The intended pass differs from the written one only on lines that do
      not start with a quote. */
  lemma IntendedOnQuote(line: string)
    requires line != "" && StartsWith(line, "\"")
    ensures LinePassIntended(line) == LinePass(line)
  {
  }

  /** The quote branch. */
  lemma QuotePass(line: string, index: int)
    requires StartsWith(line, "\"") && IndexFrom(line, "\"", 1) == index
    ensures index == -1 ==> LinePass(line).None?
    ensures index != -1 ==> 1 <= index < |line|
    ensures index != -1 ==> LinePass(line) == Some(Pass([line[..index + 1]], Trim(line[index + 1..])))
  {
    StartsWithIsIndexZero(line, "\"");
  }

  // ---------------------------------------------------------------------
  // A string constant with a space inside

  /** The branch that cuts the text before a quote that comes before the
      first space keeps a string constant holding a space as one token,
      wherever it stands on the line (the projects/10 tokenizer does not:
      see its `SpacedStringSplit`). */
  lemma SpacedStringKept(u: string, body: string, rest: string)
    requires u != "" && '"' !in u && ' ' !in u && '"' !in body && ' ' in body
    requires rest == "" || !IsJsSpace(rest[|rest| - 1])
    ensures var line, tail := u + "\"" + body + "\"" + rest, LineTokens(Trim(rest));
      && (tail.None? ==> LineTokens(line).None?)
      && (tail.Some? ==> LineTokens(line) == Some(UnitTokens(u) + ["\"" + body + "\""] + tail.value))
  {
    var q := "\"" + body + "\"";
    var line := u + "\"" + body + "\"" + rest;
    SpacedStringAfterUnitPass(u, body, rest);
    QuoteFirstWritten(body, rest);
    WrittenTokensAfterPass(line, Pass(UnitTokens(u), q + rest));
    var tail := LineTokens(Trim(rest));
    if tail.Some? {
      assert UnitTokens(u) + ([q] + tail.value) == UnitTokens(u) + [q] + tail.value;
    }
  }

  /** The first pass over such a line pushes the tokens of the run and
      leaves the line from its string constant on. */
  lemma SpacedStringAfterUnitPass(u: string, body: string, rest: string)
    requires u != "" && '"' !in u && ' ' !in u && ' ' in body
    requires rest == "" || !IsJsSpace(rest[|rest| - 1])
    ensures var line := u + "\"" + body + "\"" + rest;
      line != "" && LinePass(line) == Some(Pass(UnitTokens(u), "\"" + body + "\"" + rest))
  {
    QuoteAfterUnit(u, body, rest);
    var qr := "\"" + body + "\"" + rest;
    assert ' ' in qr by {
      var i :| 0 <= i < |body| && body[i] == ' ';
      assert qr[i + 1] == body[i];
    }
    UnitBeforeSpacedQuotePass(u, qr);
  }

  lemma WrittenTokensAfterPass(line: string, pass: Pass)
    requires line != "" && LinePass(line) == Some(pass)
    ensures LineTokens(line) == (var r :- LineTokens(pass.rest); Some(pass.pushed + r))
  {
  }

  /** The pass over a run without quotes or spaces followed by a trimmed
      text that starts with a quote and holds a space. */
  lemma UnitBeforeSpacedQuotePass(u: string, qr: string)
    requires u != "" && '"' !in u && ' ' !in u
    requires qr != "" && qr[0] == '"' && Trim(qr) == qr && ' ' in qr
    ensures LinePass(u + qr) == Some(Pass(UnitTokens(u), qr))
  {
    var line := u + qr;
    IndexOfChar(line, '"');
    IndexOfChar(line, ' ');
    StartsWithIsIndexZero(line, "\"");
    assert line[|u|] == '"' && line[0] == u[0];
    assert line[..|u|] == u;
    var dq := IndexOf(line, "\"");
    assert dq == |u|;
    var sp := IndexOf(line, " ");
    assert sp > dq;
    assert line[..dq] == u && line[dq..] == qr;
  }

  /** A line that starts with a string constant yields it first. */
  lemma QuoteFirstWritten(body: string, rest: string)
    requires '"' !in body
    ensures var q := "\"" + body + "\"";
      LineTokens(q + rest) == (var tail :- LineTokens(Trim(rest)); Some([q] + tail))
  {
    var q := "\"" + body + "\"";
    var line := q + rest;
    ClosingQuote(body, rest);
    QuotePass(line, |q| - 1);
    assert line[..|q|] == q && line[|q|..] == rest;
  }

  /** `JackTokenizer`: the token list and a cursor over it. */
  class Tokenizer {
    const tokens: seq<string>
    var tokenCounter: nat
    var currentToken: Option<string>

    /** The cursor stays within the list and shows the token under it,
        `undefined` once it is past the last one. */
    ghost predicate Valid()
      reads this
    {
      tokenCounter <= |tokens| && currentToken == TokenAt(tokens, tokenCounter)
    }

    /** The constructor, given the text of the file. */
    constructor (content: string)
      requires Tokens(content).Some?
      ensures tokens == Tokens(content).value
      ensures tokenCounter == 0 && Valid()
    {
      var fileContent := RemoveBlockComments(content);
      var lines := CleanLines(Split(fileContent, "\n"));
      assert Tokens(content) == LinesTokens(lines);
      var ts := TokenizeLines(lines);
      tokens := ts;
      tokenCounter := 0;
      currentToken := TokenAt(ts, 0);
    }

    /** `hasMoreTokens`. */
    predicate HasMoreTokens()
      reads this
      ensures Valid() ==> (HasMoreTokens() <==> currentToken.Some?)
    {
      |tokens| > tokenCounter
    }

    /** `advance`: one token on while there are tokens left, a no-op
        otherwise; the cursor never passes the end of the list. */
    method Advance()
      modifies this
      ensures old(HasMoreTokens()) ==> tokenCounter == old(tokenCounter) + 1
      ensures !old(HasMoreTokens()) ==> tokenCounter == old(tokenCounter) && currentToken == old(currentToken)
      ensures old(HasMoreTokens()) ==> currentToken == TokenAt(tokens, tokenCounter)
      ensures old(Valid()) ==> Valid()
    {
      if !HasMoreTokens() {
        return;
      }
      tokenCounter := tokenCounter + 1;
      currentToken := TokenAt(tokens, tokenCounter);
    }

    /** `tokenType`: the class of the current token, taken in the order
        keyword, symbol, integer, identifier, string; past the last token,
        or on a text of no class, it throws. */
    function TokenType(): (r: Result<TokenType>)
      reads this
      ensures Valid() && !HasMoreTokens() ==> r == Err(UndefinedTokenMessage)
      ensures r == Ok(Keyword) <==> currentToken.Some? && IsKeyword(currentToken.value)
      ensures r == Ok(JackLexicon.Symbol) ==> currentToken.Some? && IsSymbol(currentToken.value)
      ensures r == Ok(IntConst) ==> currentToken.Some? && IsIntegerConstant(currentToken.value)
      ensures r == Ok(JackLexicon.Identifier) ==> currentToken.Some? && IsIdentifierText(currentToken.value) && !IsKeyword(currentToken.value)
      ensures r == Ok(StringConst) ==> currentToken.Some? && IsStringConstant(currentToken.value)
      ensures r.Err? <==> currentToken.None? || !IsToken(currentToken.value)
    {
      TokenTypeOf(currentToken)
    }

    function KeyWord(): (r: Result<Option<string>>)
      reads this
      ensures r.Err? <==> TokenType().Err?
      ensures r == Ok(currentToken) <==> TokenType() == Ok(Keyword)
      ensures r == Ok(None) <==> TokenType().Ok? && TokenType() != Ok(Keyword)
    {
      TokenIfSpec(currentToken, Keyword);
      TokenIf(currentToken, Keyword)
    }

    function Symbol(): (r: Result<Option<string>>)
      reads this
      ensures r.Err? <==> TokenType().Err?
      ensures r == Ok(currentToken) <==> TokenType() == Ok(JackLexicon.Symbol)
      ensures r == Ok(None) <==> TokenType().Ok? && TokenType() != Ok(JackLexicon.Symbol)
    {
      TokenIfSpec(currentToken, JackLexicon.Symbol);
      TokenIf(currentToken, JackLexicon.Symbol)
    }

    function Identifier(): (r: Result<Option<string>>)
      reads this
      ensures r.Err? <==> TokenType().Err?
      ensures r == Ok(currentToken) <==> TokenType() == Ok(JackLexicon.Identifier)
      ensures r == Ok(None) <==> TokenType().Ok? && TokenType() != Ok(JackLexicon.Identifier)
    {
      TokenIfSpec(currentToken, JackLexicon.Identifier);
      TokenIf(currentToken, JackLexicon.Identifier)
    }

    function IntVal(): (r: Result<Option<string>>)
      reads this
      ensures r.Err? <==> TokenType().Err?
      ensures r == Ok(currentToken) <==> TokenType() == Ok(IntConst)
      ensures r == Ok(None) <==> TokenType().Ok? && TokenType() != Ok(IntConst)
    {
      TokenIfSpec(currentToken, IntConst);
      TokenIf(currentToken, IntConst)
    }

    function StringVal(): (r: Result<Option<string>>)
      reads this
      ensures r.Err? <==> TokenType().Err?
      ensures r.Ok? && r.value.Some? <==> TokenType() == Ok(StringConst)
      ensures r.Ok? && r.value.Some? ==> currentToken.value == "\"" + r.value.value + "\""
    {
      StringValOf(currentToken)
    }
  }
}
