/** The Jack grammar as the two compilation engines of projects 11
    (projects/11/JackAnalyzer/compilationEngine.js and
    projects/11/JackCompiler/compilationEngine.js) recognise it: one
    function per `compile…` method and one per `while` loop of a method,
    each taking the token list and the engine's state before the call and
    giving the state after it, or the message of the exception the method
    throws. The two engines differ only where the compiler fills its symbol
    table, so one definition serves both, switched by `Engine`. */
module JackGrammar {
  import opened Wrappers
  import opened Text
  import opened JackLexicon
  import opened JackSymbolTable

  /** Which of the two engines: the analyzer writes every name as a plain
      identifier; the compiler defines declared names in its symbol table
      and writes them with their entry. */
  datatype Engine = Analyzer | Compiler

  /** What an engine changes as it goes: the tokenizer's cursor, the
      indentation count, the lines of the XML file and the symbol table. */
  datatype State = State(pos: nat, indent: nat, out: seq<string>, scopes: Scopes)

  /** The declaration a defining name belongs to: its type token and its
      kind. */
  datatype Decl = Decl(typ: string, kind: string)

  /** A token of the list together with what `tokenType()` gives for it.
      The tokenizer classifies the current token afresh at every call; the
      answer depends on the token alone, so it is computed once per token
      by `Lex`. */
  datatype Token = Token(text: string, kind: Result<TokenType>)

  /** Every token paired with its `tokenType()`. */
  function Lex(ts: seq<string>): seq<Token> {
    if ts == [] then [] else [Token(ts[0], TokenTypeOf(Some(ts[0])))] + Lex(ts[1..])
  }

  lemma {:induction false} LexLength(ts: seq<string>)
    ensures |Lex(ts)| == |ts|
  {
    if ts != [] {
      LexLength(ts[1..]);
    }
  }

  lemma {:induction false} LexAt(ts: seq<string>, i: nat)
    requires i < |ts|
    ensures |Lex(ts)| == |ts| && Lex(ts)[i] == Token(ts[i], TokenTypeOf(Some(ts[i])))
  {
    LexLength(ts);
    if i > 0 {
      LexAt(ts[1..], i - 1);
    }
  }

  lemma LexTexts(ts: seq<string>)
    ensures |Lex(ts)| == |ts| && forall i :: 0 <= i < |ts| ==> Lex(ts)[i].text == ts[i]
  {
    forall i | 0 <= i < |ts|
      ensures Lex(ts)[i].text == ts[i]
    {
      LexAt(ts, i);
    }
    LexLength(ts);
  }

  // ---------------------------------------------------------------------
  // The token under the cursor

  /** `currentToken`: `undefined` past the end of the list. */
  function Cur(ts: seq<Token>, s: State): Option<string> {
    if s.pos < |ts| then Some(ts[s.pos].text) else None
  }

  /** `tokenType()` of the current token; past the end it throws, as the
      `match` on `undefined` does. */
  function Kind(ts: seq<Token>, s: State): Result<TokenType> {
    if s.pos < |ts| then ts[s.pos].kind else Err(UndefinedTokenMessage)
  }

  /** `keyWord()`, `symbol()`, `identifier()` and `intVal()`: the current
      token when its type is `t`, `undefined` for any other type. */
  function KindIf(ts: seq<Token>, s: State, t: TokenType): Result<Option<string>> {
    var found :- Kind(ts, s);
    Ok(if found == t then Cur(ts, s) else None)
  }

  /** `slice(1, -1)`: the text without its first and last characters. */
  function Unquoted(text: string): string {
    if |text| >= 2 then text[1..|text| - 1] else ""
  }

  /** Over a lexed list the cursor is the tokenizer's `currentToken` and
      `Kind` is its `tokenType()`. */
  lemma LexedCursor(ts: seq<string>, s: State)
    ensures |Lex(ts)| == |ts|
    ensures Cur(Lex(ts), s) == TokenAt(ts, s.pos) && Kind(Lex(ts), s) == TokenTypeOf(TokenAt(ts, s.pos))
  {
    LexLength(ts);
    if s.pos < |ts| {
      LexAt(ts, s.pos);
    }
  }

  /** `stringVal()` of a string constant is its text without the quotes. */
  lemma StringValIsUnquoted(token: string)
    requires TokenTypeOf(Some(token)) == Ok(StringConst)
    ensures StringValOf(Some(token)) == Ok(Some(Unquoted(token)))
  {
    var v := StringValOf(Some(token)).value.value;
    assert token == "\"" + v + "\"";
    assert token[1..|token| - 1] == v;
  }

  /** `currentToken === w`. */
  predicate At(ts: seq<Token>, s: State, w: string) {
    Cur(ts, s) == Some(w)
  }

  /** `ws.includes(currentToken)`: false past the end of the list. */
  predicate AtOneOf(ts: seq<Token>, s: State, ws: seq<string>) {
    Cur(ts, s).Some? && Cur(ts, s).value in ws
  }

  /** `advance()` of the tokenizer. */
  function Advanced(ts: seq<Token>, s: State): State {
    if s.pos < |ts| then s.(pos := s.pos + 1) else s
  }

  const TypeKeywords: seq<string> := ["int", "char", "boolean"]
  const ClassVarKeywords: seq<string> := ["static", "field"]
  const SubroutineKeywords: seq<string> := ["constructor", "function", "method"]
  const ReturnTypeKeywords: seq<string> := ["constructor", "function", "method", "void"]
  const StatementKeywords: seq<string> := ["let", "if", "while", "do", "return"]
  const KeywordConstants: seq<string> := ["true", "false", "null", "this"]
  const Ops: seq<string> := ["+", "-", "*", "/", "&", "|", "<", ">", "="]
  const UnaryOps: seq<string> := ["-", "~"]

  // ---------------------------------------------------------------------
  // Lines of the XML file

  /** `'  '.repeat(n)`. */
  function Indent(n: nat): string {
    if n == 0 then "" else "  " + Indent(n - 1)
  }

  function ElementLine(n: nat, tag: string, value: string): string {
    Indent(n) + "<" + tag + "> " + value + " </" + tag + ">"
  }

  function StartLine(n: nat, tag: string): string {
    Indent(n) + "<" + tag + ">"
  }

  function EndLine(n: nat, tag: string): string {
    Indent(n) + "</" + tag + ">"
  }

  function IdentifierLine(n: nat, name: string, isDefined: bool, typ: string, kind: string, index: nat): string {
    Indent(n) + "<identifier> " + name + " </identifier> isDefined: " + (if isDefined then "true" else "false") +
    ", type: " + typ + ", kind: " + kind + ", index: " + NatToString(index)
  }

  /** `writeElement`. */
  function WriteElement(s: State, tag: string, value: string): State {
    s.(out := s.out + [ElementLine(s.indent, tag, value)])
  }

  /** `writeElementStart`: the line at the current depth, one level deeper
      afterwards. */
  function WriteStart(s: State, tag: string): State {
    s.(out := s.out + [StartLine(s.indent, tag)], indent := s.indent + 1)
  }

  /** `writeElementEnd`: one level up, then the line at that depth. */
  function WriteEnd(s: State, tag: string): State
    requires s.indent > 0
  {
    s.(indent := s.indent - 1, out := s.out + [EndLine(s.indent - 1, tag)])
  }

  /** `writeIdentifier` of the compiler: `typeOf` throws for a name in no
      table (and `indexOf`, for the same names, is then never reached). */
  function WriteIdentifier(s: State, name: string, isDefined: bool): Result<State> {
    var kind := s.scopes.KindOf(name);
    var typ :- s.scopes.TypeOf(name);
    var index := s.scopes.IndexOf(name).value;
    Ok(s.(out := s.out + [IdentifierLine(s.indent, name, isDefined, typ, kind, index)]))
  }

  // ---------------------------------------------------------------------
  // Terminals

  /** `checkToken`. */
  function CheckToken(ts: seq<Token>, s: State, t: TokenType): Result<()> {
    var found :- Kind(ts, s);
    if t != found then
      Err("invalid token, token: " + JsText(Cur(ts, s)) + ", tokenType: " + TypeName(found) + ", expected type: " + TypeName(t))
    else Ok(())
  }

  /** `compileKeyword`. The `checkToken(KEYWORD)` that follows the list
      test in the source cannot fail once the test passed
      (`JackGrammarProperties.LexedKeyword` and `LexedCheckToken`), so it is
      not repeated here. */
  function Keyword(ts: seq<Token>, s: State, keywords: seq<string>): (r: Result<State>)
    requires s.pos <= |ts|
    ensures r.Ok? <==> AtOneOf(ts, s, keywords) && Kind(ts, s) == Ok(JackLexicon.Keyword)
    ensures r.Ok? ==> r.value.pos == s.pos + 1 <= |ts| && r.value.indent == s.indent && r.value.scopes == s.scopes
  {
    var keyword :- KindIf(ts, s, JackLexicon.Keyword);
    if !(keyword.Some? && keyword.value in keywords) then
      Err("invalid keyword, keyword: " + JsText(keyword) + ", expected keywords: " + Join(keywords, ","))
    else
      Ok(Advanced(ts, WriteElement(s, "keyword", keyword.value)))
  }

  /** `compileSymbol`: `<`, `>` and `&` are written escaped. As in
      `Keyword`, the `checkToken(SYMBOL)` after the list test cannot fail
      (`JackGrammarProperties.LexedSymbol` and `LexedCheckToken`). */
  function Symbol(ts: seq<Token>, s: State, symbols: seq<string>): (r: Result<State>)
    requires s.pos <= |ts|
    ensures r.Ok? <==> AtOneOf(ts, s, symbols) && Kind(ts, s) == Ok(JackLexicon.Symbol)
    ensures r.Ok? ==> r.value.pos == s.pos + 1 <= |ts| && r.value.indent == s.indent && r.value.scopes == s.scopes
  {
    var symbol :- KindIf(ts, s, JackLexicon.Symbol);
    if !(symbol.Some? && symbol.value in symbols) then
      Err("invalid symbol, symbol: " + JsText(symbol) + ", expected symbols: " + Join(symbols, ",") +
          ", currentToken: " + JsText(Cur(ts, s)))
    else
      Ok(Advanced(ts, WriteElement(s, "symbol", Escape(symbol.value))))
  }

  /** `compileIntegerConstant`: once the check passed, `intVal()` is the
      token itself. */
  function IntegerConstant(ts: seq<Token>, s: State): (r: Result<State>)
    requires s.pos <= |ts|
    ensures r.Ok? ==> r.value.pos == s.pos + 1 <= |ts| && r.value.indent == s.indent && r.value.scopes == s.scopes
  {
    var _ :- CheckToken(ts, s, IntConst);
    Ok(Advanced(ts, WriteElement(s, "integerConstant", ts[s.pos].text)))
  }

  /** `compileStringConstant`: the constant without its quotes. */
  function StringConstant(ts: seq<Token>, s: State): (r: Result<State>)
    requires s.pos <= |ts|
    ensures r.Ok? ==> r.value.pos == s.pos + 1 <= |ts| && r.value.indent == s.indent && r.value.scopes == s.scopes
  {
    var _ :- CheckToken(ts, s, StringConst);
    Ok(Advanced(ts, WriteElement(s, "stringConstant", Unquoted(ts[s.pos].text))))
  }

  /** `compileIdentifier`. */
  function Identifier(ts: seq<Token>, s: State): (r: Result<State>)
    requires s.pos <= |ts|
    ensures r.Ok? <==> Kind(ts, s) == Ok(JackLexicon.Identifier)
    ensures r.Ok? ==> r.value.pos == s.pos + 1 <= |ts| && r.value.indent == s.indent && r.value.scopes == s.scopes
  {
    var _ :- CheckToken(ts, s, JackLexicon.Identifier);
    Ok(Advanced(ts, WriteElement(s, "identifier", ts[s.pos].text)))
  }

  /** `compileVarName` of the compiler: a defining occurrence (`decl` given)
      is stored in the symbol table before the line is written. */
  function VarName(ts: seq<Token>, s: State, decl: Option<Decl>): (r: Result<State>)
    requires s.pos <= |ts|
    ensures r.Ok? ==> r.value.pos == s.pos + 1 <= |ts| && r.value.indent == s.indent
  {
    var _ :- CheckToken(ts, s, JackLexicon.Identifier);
    var name := ts[s.pos].text;
    var scopes :- if decl.Some? then s.scopes.Define(name, decl.value.typ, decl.value.kind) else Ok(s.scopes);
    var s1 :- WriteIdentifier(s.(scopes := scopes), name, decl.Some?);
    Ok(Advanced(ts, s1))
  }

  /** A declared name: a plain identifier for the analyzer, a defining
      `compileVarName` for the compiler. */
  function DeclaredName(ts: seq<Token>, eng: Engine, s: State, decl: Decl): (r: Result<State>)
    requires s.pos <= |ts|
    ensures r.Ok? ==> r.value.pos == s.pos + 1 <= |ts| && r.value.indent == s.indent && (eng == Analyzer ==> r.value.scopes == s.scopes)
  {
    if eng == Compiler then VarName(ts, s, Some(decl)) else Identifier(ts, s)
  }

  /** `compileType`. */
  function Type(ts: seq<Token>, s: State): (r: Result<State>)
    requires s.pos <= |ts|
    ensures r.Ok? ==> r.value.pos == s.pos + 1 <= |ts| && r.value.indent == s.indent && r.value.scopes == s.scopes
  {
    if AtOneOf(ts, s, TypeKeywords) then Keyword(ts, s, TypeKeywords) else Identifier(ts, s)
  }

  // ---------------------------------------------------------------------
  // Program structure

  /** `compileClass`. */
  function Class(ts: seq<Token>, eng: Engine, s: State): (r: Result<State>)
    requires s.pos <= |ts|
    ensures r.Ok? ==> s.pos < r.value.pos <= |ts| && r.value.indent == s.indent && (eng == Analyzer ==> r.value.scopes == s.scopes)
  {
    var s1 :- Keyword(ts, WriteStart(s, "class"), ["class"]);
    var s2 :- Identifier(ts, s1);
    var s3 :- Symbol(ts, s2, ["{"]);
    var s4 :- ClassVarDecs(ts, eng, s3);
    var s5 :- Subroutines(ts, eng, s4);
    var s6 :- Symbol(ts, s5, ["}"]);
    Ok(WriteEnd(s6, "class"))
  }

  /** The loop of `compileClass` over class variable declarations. */
  function ClassVarDecs(ts: seq<Token>, eng: Engine, s: State): (r: Result<State>)
    requires s.pos <= |ts|
    ensures r.Ok? ==> s.pos <= r.value.pos <= |ts| && r.value.indent == s.indent && (eng == Analyzer ==> r.value.scopes == s.scopes)
    decreases |ts| - s.pos
  {
    if AtOneOf(ts, s, ClassVarKeywords) then
      var s1 :- ClassVarDec(ts, eng, s);
      ClassVarDecs(ts, eng, s1)
    else Ok(s)
  }

  /** The loop of `compileClass` over subroutine declarations. */
  function Subroutines(ts: seq<Token>, eng: Engine, s: State): (r: Result<State>)
    requires s.pos <= |ts|
    ensures r.Ok? ==> s.pos <= r.value.pos <= |ts| && r.value.indent == s.indent && (eng == Analyzer ==> r.value.scopes == s.scopes)
    decreases |ts| - s.pos
  {
    if AtOneOf(ts, s, SubroutineKeywords) then
      var s1 :- Subroutine(ts, eng, s);
      Subroutines(ts, eng, s1)
    else Ok(s)
  }

  /** `compileClassVarDec`: the kind token and the type token are taken
      before they are compiled and shared by every name. */
  function ClassVarDec(ts: seq<Token>, eng: Engine, s: State): (r: Result<State>)
    requires s.pos <= |ts|
    ensures r.Ok? ==> s.pos < r.value.pos <= |ts| && r.value.indent == s.indent && (eng == Analyzer ==> r.value.scopes == s.scopes)
  {
    var s0 := WriteStart(s, "classVarDec");
    var kind := JsText(Cur(ts, s0));
    var s1 :- Keyword(ts, s0, ClassVarKeywords);
    var decl := Decl(JsText(Cur(ts, s1)), kind);
    var s2 :- Type(ts, s1);
    var s3 :- DeclaredName(ts, eng, s2, decl);
    var s4 :- ClassVarNames(ts, eng, s3, decl);
    var s5 :- Symbol(ts, s4, [";"]);
    Ok(WriteEnd(s5, "classVarDec"))
  }

  /** The loop of `compileClassVarDec`: `, name` until the current token is
      `;`. */
  function ClassVarNames(ts: seq<Token>, eng: Engine, s: State, decl: Decl): (r: Result<State>)
    requires s.pos <= |ts|
    ensures r.Ok? ==> s.pos <= r.value.pos <= |ts| && r.value.indent == s.indent && (eng == Analyzer ==> r.value.scopes == s.scopes)
    decreases |ts| - s.pos
  {
    if At(ts, s, ";") then Ok(s)
    else
      var s1 :- Symbol(ts, s, [","]);
      var s2 :- DeclaredName(ts, eng, s1, decl);
      ClassVarNames(ts, eng, s2, decl)
  }

  /** `compileSubroutine`: the compiler empties the subroutine scope first. */
  function Subroutine(ts: seq<Token>, eng: Engine, s: State): (r: Result<State>)
    requires s.pos <= |ts|
    ensures r.Ok? ==> s.pos < r.value.pos <= |ts| && r.value.indent == s.indent && (eng == Analyzer ==> r.value.scopes == s.scopes)
  {
    var s0 := if eng == Compiler then s.(scopes := s.scopes.StartSubroutine()) else s;
    var s1 :- Keyword(ts, WriteStart(s0, "subroutineDec"), SubroutineKeywords);
    var s2 :- ReturnType(ts, s1);
    var s3 :- Identifier(ts, s2);
    var s4 :- ParameterClause(ts, eng, s3);
    var s5 :- SubroutineBody(ts, eng, s4);
    Ok(WriteEnd(s5, "subroutineDec"))
  }

  /** The return type of `compileSubroutine`: `void` is checked against the
      subroutine keywords and `void`, any other token is a type. */
  function ReturnType(ts: seq<Token>, s: State): (r: Result<State>)
    requires s.pos <= |ts|
    ensures r.Ok? ==> r.value.pos == s.pos + 1 <= |ts| && r.value.indent == s.indent && r.value.scopes == s.scopes
  {
    if At(ts, s, "void") then Keyword(ts, s, ReturnTypeKeywords) else Type(ts, s)
  }

  /** `( parameterList )` of `compileSubroutine`. */
  function ParameterClause(ts: seq<Token>, eng: Engine, s: State): (r: Result<State>)
    requires s.pos <= |ts|
    ensures r.Ok? ==> s.pos < r.value.pos <= |ts| && r.value.indent == s.indent && (eng == Analyzer ==> r.value.scopes == s.scopes)
  {
    var s1 :- Symbol(ts, s, ["("]);
    var s2 :- ParameterList(ts, eng, s1);
    Symbol(ts, s2, [")"])
  }

  /** `compileParameterList`. */
  function ParameterList(ts: seq<Token>, eng: Engine, s: State): (r: Result<State>)
    requires s.pos <= |ts|
    ensures r.Ok? ==> s.pos <= r.value.pos <= |ts| && r.value.indent == s.indent && (eng == Analyzer ==> r.value.scopes == s.scopes)
  {
    var s1 :- Parameters(ts, eng, WriteStart(s, "parameterList"));
    Ok(WriteEnd(s1, "parameterList"))
  }

  /** The condition of the outer loop of `compileParameterList`: a type
      keyword, or else a token whose type (which may throw) is
      identifier. */
  function ParameterAhead(ts: seq<Token>, s: State): Result<bool> {
    if AtOneOf(ts, s, TypeKeywords) then Ok(true)
    else
      var t :- Kind(ts, s);
      Ok(t == JackLexicon.Identifier)
  }

  /** One parameter: its type, then its name defined as an argument of that
      type. */
  function Parameter(ts: seq<Token>, eng: Engine, s: State): (r: Result<State>)
    requires s.pos <= |ts|
    ensures r.Ok? ==> r.value.pos == s.pos + 2 <= |ts| && r.value.indent == s.indent && (eng == Analyzer ==> r.value.scopes == s.scopes)
  {
    var decl := Decl(JsText(Cur(ts, s)), Argument);
    var s1 :- Type(ts, s);
    DeclaredName(ts, eng, s1, decl)
  }

  /** The outer loop of `compileParameterList`. */
  function Parameters(ts: seq<Token>, eng: Engine, s: State): (r: Result<State>)
    requires s.pos <= |ts|
    ensures r.Ok? ==> s.pos <= r.value.pos <= |ts| && r.value.indent == s.indent && (eng == Analyzer ==> r.value.scopes == s.scopes)
    decreases |ts| - s.pos
  {
    var more :- ParameterAhead(ts, s);
    if !more then Ok(s)
    else
      var s1 :- Parameter(ts, eng, s);
      var s2 :- MoreParameters(ts, eng, s1);
      Parameters(ts, eng, s2)
  }

  /** The inner loop of `compileParameterList`: `, type name` while the
      current token is `,`. */
  function MoreParameters(ts: seq<Token>, eng: Engine, s: State): (r: Result<State>)
    requires s.pos <= |ts|
    ensures r.Ok? ==> s.pos <= r.value.pos <= |ts| && r.value.indent == s.indent && (eng == Analyzer ==> r.value.scopes == s.scopes)
    decreases |ts| - s.pos
  {
    if At(ts, s, ",") then
      var s1 :- Symbol(ts, s, [","]);
      var s2 :- Parameter(ts, eng, s1);
      MoreParameters(ts, eng, s2)
    else Ok(s)
  }

  /** `compileSubroutineBody`. */
  function SubroutineBody(ts: seq<Token>, eng: Engine, s: State): (r: Result<State>)
    requires s.pos <= |ts|
    ensures r.Ok? ==> s.pos < r.value.pos <= |ts| && r.value.indent == s.indent && (eng == Analyzer ==> r.value.scopes == s.scopes)
  {
    var s1 :- Symbol(ts, WriteStart(s, "subroutineBody"), ["{"]);
    var s2 :- VarDecs(ts, eng, s1);
    var s3 :- Statements(ts, eng, s2);
    var s4 :- Symbol(ts, s3, ["}"]);
    Ok(WriteEnd(s4, "subroutineBody"))
  }

  /** The loop of `compileSubroutineBody` over `var` declarations. */
  function VarDecs(ts: seq<Token>, eng: Engine, s: State): (r: Result<State>)
    requires s.pos <= |ts|
    ensures r.Ok? ==> s.pos <= r.value.pos <= |ts| && r.value.indent == s.indent && (eng == Analyzer ==> r.value.scopes == s.scopes)
    decreases |ts| - s.pos
  {
    if At(ts, s, "var") then
      var s1 :- VarDec(ts, eng, s);
      VarDecs(ts, eng, s1)
    else Ok(s)
  }

  /** `compileVarDec`: every name shares the type token. */
  function VarDec(ts: seq<Token>, eng: Engine, s: State): (r: Result<State>)
    requires s.pos <= |ts|
    ensures r.Ok? ==> s.pos < r.value.pos <= |ts| && r.value.indent == s.indent && (eng == Analyzer ==> r.value.scopes == s.scopes)
  {
    var s1 :- Keyword(ts, WriteStart(s, "varDec"), ["var"]);
    var decl := Decl(JsText(Cur(ts, s1)), Var);
    var s2 :- Type(ts, s1);
    var s3 :- DeclaredName(ts, eng, s2, decl);
    var s4 :- VarNames(ts, eng, s3, decl);
    var s5 :- Symbol(ts, s4, [";"]);
    Ok(WriteEnd(s5, "varDec"))
  }

  /** The loop of `compileVarDec`: `, name` while the current token is `,`. */
  function VarNames(ts: seq<Token>, eng: Engine, s: State, decl: Decl): (r: Result<State>)
    requires s.pos <= |ts|
    ensures r.Ok? ==> s.pos <= r.value.pos <= |ts| && r.value.indent == s.indent && (eng == Analyzer ==> r.value.scopes == s.scopes)
    decreases |ts| - s.pos
  {
    if At(ts, s, ",") then
      var s1 :- Symbol(ts, s, [","]);
      var s2 :- DeclaredName(ts, eng, s1, decl);
      VarNames(ts, eng, s2, decl)
    else Ok(s)
  }

  // ---------------------------------------------------------------------
  // Statements and expressions: one recursive group. Each member decreases
  // the tokens left, or keeps them and goes down a rank:
  // Statements 3 > StatementList 2 > Statement 1 > the statements 0, and
  // ExpressionList 4 > ExpressionLoop, ReturnValues 3 > Expression 2 >
  // Term, NameSuffix 1 > the rest 0.

  /** `compileStatements`. */
  function Statements(ts: seq<Token>, eng: Engine, s: State): (r: Result<State>)
    requires s.pos <= |ts|
    ensures r.Ok? ==> s.pos <= r.value.pos <= |ts| && r.value.indent == s.indent && (eng == Analyzer ==> r.value.scopes == s.scopes)
    decreases |ts| - s.pos, 3
  {
    var s1 :- StatementList(ts, eng, WriteStart(s, "statements"));
    Ok(WriteEnd(s1, "statements"))
  }

  /** The loop of `compileStatements`: it goes on while the current token
      starts a statement. */
  function StatementList(ts: seq<Token>, eng: Engine, s: State): (r: Result<State>)
    requires s.pos <= |ts|
    ensures r.Ok? ==> s.pos <= r.value.pos <= |ts| && r.value.indent == s.indent && (eng == Analyzer ==> r.value.scopes == s.scopes)
    decreases |ts| - s.pos, 2
  {
    if AtOneOf(ts, s, StatementKeywords) then
      var s1 :- Statement(ts, eng, s);
      StatementList(ts, eng, s1)
    else Ok(s)
  }

  /** The dispatch in the loop of `compileStatements`. */
  function Statement(ts: seq<Token>, eng: Engine, s: State): (r: Result<State>)
    requires s.pos <= |ts|
    ensures r.Ok? ==> s.pos < r.value.pos <= |ts| && r.value.indent == s.indent && (eng == Analyzer ==> r.value.scopes == s.scopes)
    decreases |ts| - s.pos, 1
  {
    if At(ts, s, "let") then Let(ts, eng, s)
    else if At(ts, s, "if") then If(ts, eng, s)
    else if At(ts, s, "while") then While(ts, eng, s)
    else if At(ts, s, "do") then Do(ts, eng, s)
    else if At(ts, s, "return") then Return(ts, eng, s)
    else Err("invalid statement, currentToken: " + JsText(Cur(ts, s)))
  }

  /** `compileDo`. */
  function Do(ts: seq<Token>, eng: Engine, s: State): (r: Result<State>)
    requires s.pos <= |ts|
    ensures r.Ok? ==> s.pos < r.value.pos <= |ts| && r.value.indent == s.indent && (eng == Analyzer ==> r.value.scopes == s.scopes)
    decreases |ts| - s.pos, 0
  {
    var s1 :- Keyword(ts, WriteStart(s, "doStatement"), ["do"]);
    var s2 :- SubroutineCall(ts, eng, s1);
    var s3 :- Symbol(ts, s2, [";"]);
    Ok(WriteEnd(s3, "doStatement"))
  }

  /** `compileLet`: the compiler writes the target with its symbol-table
      entry. */
  function Let(ts: seq<Token>, eng: Engine, s: State): (r: Result<State>)
    requires s.pos <= |ts|
    ensures r.Ok? ==> s.pos < r.value.pos <= |ts| && r.value.indent == s.indent && (eng == Analyzer ==> r.value.scopes == s.scopes)
    decreases |ts| - s.pos, 0
  {
    var s1 :- Keyword(ts, WriteStart(s, "letStatement"), ["let"]);
    var s2 :- LetTarget(ts, eng, s1);
    var s3 :- Symbol(ts, s2, ["="]);
    var s4 :- Expression(ts, eng, s3);
    var s5 :- Symbol(ts, s4, [";"]);
    Ok(WriteEnd(s5, "letStatement"))
  }

  /** The target of `compileLet`: the name, with its symbol-table entry in
      the compiler, and its indices. */
  function LetTarget(ts: seq<Token>, eng: Engine, s: State): (r: Result<State>)
    requires s.pos <= |ts|
    ensures r.Ok? ==> s.pos < r.value.pos <= |ts| && r.value.indent == s.indent && (eng == Analyzer ==> r.value.scopes == s.scopes)
  {
    var s1 :- if eng == Compiler then VarName(ts, s, None) else Identifier(ts, s);
    LetIndices(ts, eng, s1)
  }

  /** The loop of `compileLet`: `[ expression ]` until the current token is
      `=`. */
  function LetIndices(ts: seq<Token>, eng: Engine, s: State): (r: Result<State>)
    requires s.pos <= |ts|
    ensures r.Ok? ==> s.pos <= r.value.pos <= |ts| && r.value.indent == s.indent && (eng == Analyzer ==> r.value.scopes == s.scopes)
    decreases |ts| - s.pos, 0
  {
    if At(ts, s, "=") then Ok(s)
    else
      var s1 :- Symbol(ts, s, ["["]);
      var s2 :- Expression(ts, eng, s1);
      var s3 :- Symbol(ts, s2, ["]"]);
      LetIndices(ts, eng, s3)
  }

  /** `compileWhile`. */
  function While(ts: seq<Token>, eng: Engine, s: State): (r: Result<State>)
    requires s.pos <= |ts|
    ensures r.Ok? ==> s.pos < r.value.pos <= |ts| && r.value.indent == s.indent && (eng == Analyzer ==> r.value.scopes == s.scopes)
    decreases |ts| - s.pos, 0
  {
    var s1 :- Keyword(ts, WriteStart(s, "whileStatement"), ["while"]);
    var s2 :- Parenthesized(ts, eng, s1);
    var s3 :- Block(ts, eng, s2);
    Ok(WriteEnd(s3, "whileStatement"))
  }

  /** `compileReturn`. */
  function Return(ts: seq<Token>, eng: Engine, s: State): (r: Result<State>)
    requires s.pos <= |ts|
    ensures r.Ok? ==> s.pos < r.value.pos <= |ts| && r.value.indent == s.indent && (eng == Analyzer ==> r.value.scopes == s.scopes)
    decreases |ts| - s.pos, 0
  {
    var s1 :- Keyword(ts, WriteStart(s, "returnStatement"), ["return"]);
    var s2 :- ReturnValues(ts, eng, s1);
    var s3 :- Symbol(ts, s2, [";"]);
    Ok(WriteEnd(s3, "returnStatement"))
  }

  /** The loop of `compileReturn`: expressions until the current token is
      `;`. */
  function ReturnValues(ts: seq<Token>, eng: Engine, s: State): (r: Result<State>)
    requires s.pos <= |ts|
    ensures r.Ok? ==> s.pos <= r.value.pos <= |ts| && r.value.indent == s.indent && (eng == Analyzer ==> r.value.scopes == s.scopes)
    decreases |ts| - s.pos, 3
  {
    if At(ts, s, ";") then Ok(s)
    else
      var s1 :- Expression(ts, eng, s);
      ReturnValues(ts, eng, s1)
  }

  /** `compileIf`, with its optional `else` block. */
  function If(ts: seq<Token>, eng: Engine, s: State): (r: Result<State>)
    requires s.pos <= |ts|
    ensures r.Ok? ==> s.pos < r.value.pos <= |ts| && r.value.indent == s.indent && (eng == Analyzer ==> r.value.scopes == s.scopes)
    decreases |ts| - s.pos, 0
  {
    var s1 :- Keyword(ts, WriteStart(s, "ifStatement"), ["if"]);
    var s2 :- Parenthesized(ts, eng, s1);
    var s3 :- Block(ts, eng, s2);
    var s4 :- Else(ts, eng, s3);
    Ok(WriteEnd(s4, "ifStatement"))
  }

  /** `{ statements }`: the body of `while`, of `if` and of `else`. */
  function Block(ts: seq<Token>, eng: Engine, s: State): (r: Result<State>)
    requires s.pos <= |ts|
    ensures r.Ok? ==> s.pos < r.value.pos <= |ts| && r.value.indent == s.indent && (eng == Analyzer ==> r.value.scopes == s.scopes)
    decreases |ts| - s.pos, 0
  {
    var s1 :- Symbol(ts, s, ["{"]);
    var s2 :- Statements(ts, eng, s1);
    Symbol(ts, s2, ["}"])
  }

  /** The optional `else { statements }` of `compileIf`. */
  function Else(ts: seq<Token>, eng: Engine, s: State): (r: Result<State>)
    requires s.pos <= |ts|
    ensures r.Ok? ==> s.pos <= r.value.pos <= |ts| && r.value.indent == s.indent && (eng == Analyzer ==> r.value.scopes == s.scopes)
    decreases |ts| - s.pos, 0
  {
    if At(ts, s, "else") then
      var s1 :- Keyword(ts, s, ["else"]);
      Block(ts, eng, s1)
    else Ok(s)
  }

  /** `compileSubroutineCall`. */
  function SubroutineCall(ts: seq<Token>, eng: Engine, s: State): (r: Result<State>)
    requires s.pos <= |ts|
    ensures r.Ok? ==> s.pos < r.value.pos <= |ts| && r.value.indent == s.indent && (eng == Analyzer ==> r.value.scopes == s.scopes)
    decreases |ts| - s.pos, 0
  {
    var s1 :- Identifier(ts, s);
    var s2 :- if At(ts, s1, ".") then Qualifier(ts, s1) else Ok(s1);
    Arguments(ts, eng, s2)
  }

  /** `. name` of a qualified subroutine name. */
  function Qualifier(ts: seq<Token>, s: State): (r: Result<State>)
    requires s.pos <= |ts|
    ensures r.Ok? ==> r.value.pos == s.pos + 2 <= |ts| && r.value.indent == s.indent && r.value.scopes == s.scopes
  {
    var s1 :- Symbol(ts, s, ["."]);
    Identifier(ts, s1)
  }

  /** `( expressionList )` of a subroutine call. */
  function Arguments(ts: seq<Token>, eng: Engine, s: State): (r: Result<State>)
    requires s.pos <= |ts|
    ensures r.Ok? ==> s.pos < r.value.pos <= |ts| && r.value.indent == s.indent && (eng == Analyzer ==> r.value.scopes == s.scopes)
    decreases |ts| - s.pos, 0
  {
    var s1 :- Symbol(ts, s, ["("]);
    var s2 :- ExpressionList(ts, eng, s1);
    Symbol(ts, s2, [")"])
  }

  /** `compileExpressionList`. */
  function ExpressionList(ts: seq<Token>, eng: Engine, s: State): (r: Result<State>)
    requires s.pos <= |ts|
    ensures r.Ok? ==> s.pos <= r.value.pos <= |ts| && r.value.indent == s.indent && (eng == Analyzer ==> r.value.scopes == s.scopes)
    decreases |ts| - s.pos, 4
  {
    var s1 :- ExpressionLoop(ts, eng, WriteStart(s, "expressionList"));
    Ok(WriteEnd(s1, "expressionList"))
  }

  /** The outer loop of `compileExpressionList`: until the current token is
      `)`. */
  function ExpressionLoop(ts: seq<Token>, eng: Engine, s: State): (r: Result<State>)
    requires s.pos <= |ts|
    ensures r.Ok? ==> s.pos <= r.value.pos <= |ts| && r.value.indent == s.indent && (eng == Analyzer ==> r.value.scopes == s.scopes)
    decreases |ts| - s.pos, 3
  {
    if At(ts, s, ")") then Ok(s)
    else
      var s1 :- Expression(ts, eng, s);
      var s2 :- MoreExpressions(ts, eng, s1);
      ExpressionLoop(ts, eng, s2)
  }

  /** The inner loop of `compileExpressionList`: `, expression` while the
      current token is `,`. */
  function MoreExpressions(ts: seq<Token>, eng: Engine, s: State): (r: Result<State>)
    requires s.pos <= |ts|
    ensures r.Ok? ==> s.pos <= r.value.pos <= |ts| && r.value.indent == s.indent && (eng == Analyzer ==> r.value.scopes == s.scopes)
    decreases |ts| - s.pos, 0
  {
    if At(ts, s, ",") then
      var s1 :- Symbol(ts, s, [","]);
      var s2 :- Expression(ts, eng, s1);
      MoreExpressions(ts, eng, s2)
    else Ok(s)
  }

  /** `compileExpression`: term (op term)*, with no precedence among the
      operators. */
  function Expression(ts: seq<Token>, eng: Engine, s: State): (r: Result<State>)
    requires s.pos <= |ts|
    ensures r.Ok? ==> s.pos < r.value.pos <= |ts| && r.value.indent == s.indent && (eng == Analyzer ==> r.value.scopes == s.scopes)
    decreases |ts| - s.pos, 2
  {
    var s1 :- Term(ts, eng, WriteStart(s, "expression"));
    var s2 :- OpTerms(ts, eng, s1);
    Ok(WriteEnd(s2, "expression"))
  }

  /** The loop of `compileExpression`: `op term` while the current token is
      one of the nine operators. */
  function OpTerms(ts: seq<Token>, eng: Engine, s: State): (r: Result<State>)
    requires s.pos <= |ts|
    ensures r.Ok? ==> s.pos <= r.value.pos <= |ts| && r.value.indent == s.indent && (eng == Analyzer ==> r.value.scopes == s.scopes)
    decreases |ts| - s.pos, 0
  {
    if AtOneOf(ts, s, Ops) then
      var s1 :- Symbol(ts, s, Ops);
      var s2 :- Term(ts, eng, s1);
      OpTerms(ts, eng, s2)
    else Ok(s)
  }

  /** `compileTerm`: the first test that holds decides the kind of term. */
  function Term(ts: seq<Token>, eng: Engine, s: State): (r: Result<State>)
    requires s.pos <= |ts|
    ensures r.Ok? ==> s.pos < r.value.pos <= |ts| && r.value.indent == s.indent && (eng == Analyzer ==> r.value.scopes == s.scopes)
    decreases |ts| - s.pos, 1
  {
    var s0 := WriteStart(s, "term");
    var t :- Kind(ts, s0);
    var s1 :-
      if t == IntConst then IntegerConstant(ts, s0)
      else if t == StringConst then StringConstant(ts, s0)
      else if AtOneOf(ts, s0, KeywordConstants) then Keyword(ts, s0, KeywordConstants)
      else if t == JackLexicon.Identifier then NameTerm(ts, eng, s0)
      else if At(ts, s0, "(") then Parenthesized(ts, eng, s0)
      else if AtOneOf(ts, s0, UnaryOps) then Unary(ts, eng, s0)
      else Err("invalid term: " + JsText(Cur(ts, s0)));
    Ok(WriteEnd(s1, "term"))
  }

  /** A name as a term and what follows it. The compiler's test looks up
      the text `IDENTIFIER` (what `tokenType()` returns) rather than the
      name itself. */
  function NameTerm(ts: seq<Token>, eng: Engine, s: State): (r: Result<State>)
    requires s.pos <= |ts|
    ensures r.Ok? ==> s.pos < r.value.pos <= |ts| && r.value.indent == s.indent && (eng == Analyzer ==> r.value.scopes == s.scopes)
    decreases |ts| - s.pos, 0
  {
    var s1 :-
      if eng == Compiler && s.scopes.KindOf(TypeName(JackLexicon.Identifier)) != NoKind
      then VarName(ts, s, None) else Identifier(ts, s);
    NameSuffix(ts, eng, s1)
  }

  /** What may follow a name in a term: an index, an argument list, or a
      qualified call. */
  function NameSuffix(ts: seq<Token>, eng: Engine, s: State): (r: Result<State>)
    requires s.pos <= |ts|
    ensures r.Ok? ==> s.pos <= r.value.pos <= |ts| && r.value.indent == s.indent && (eng == Analyzer ==> r.value.scopes == s.scopes)
    decreases |ts| - s.pos, 1
  {
    if At(ts, s, "[") then
      var s1 :- Symbol(ts, s, ["["]);
      var s2 :- Expression(ts, eng, s1);
      Symbol(ts, s2, ["]"])
    else if At(ts, s, "(") then Arguments(ts, eng, s)
    else if At(ts, s, ".") then
      var s1 :- Qualifier(ts, s);
      Arguments(ts, eng, s1)
    else Ok(s)
  }

  /** `( expression )`: a parenthesized term, and the condition of
      `while` and of `if`. */
  function Parenthesized(ts: seq<Token>, eng: Engine, s: State): (r: Result<State>)
    requires s.pos <= |ts|
    ensures r.Ok? ==> s.pos < r.value.pos <= |ts| && r.value.indent == s.indent && (eng == Analyzer ==> r.value.scopes == s.scopes)
    decreases |ts| - s.pos, 0
  {
    var s1 :- Symbol(ts, s, ["("]);
    var s2 :- Expression(ts, eng, s1);
    Symbol(ts, s2, [")"])
  }

  /** A unary operator and its term. */
  function Unary(ts: seq<Token>, eng: Engine, s: State): (r: Result<State>)
    requires s.pos <= |ts|
    ensures r.Ok? ==> s.pos < r.value.pos <= |ts| && r.value.indent == s.indent && (eng == Analyzer ==> r.value.scopes == s.scopes)
    decreases |ts| - s.pos, 0
  {
    var s1 :- Symbol(ts, s, UnaryOps);
    Term(ts, eng, s1)
  }
}
