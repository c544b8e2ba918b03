/** `CompilationEngine` of projects/11/JackAnalyzer and of
    projects/11/JackCompiler: a recursive-descent recogniser over the
    tokenizer's cursor that appends one XML line per element and keeps an
    indentation count; the compiler's copy also fills a symbol table. Every
    `compile…` method is proved to do what the function of the same
    production in `JackGrammar` says, exception message included. */
module JackEngine {
  import opened Wrappers
  import opened Text
  import opened JackLexicon
  import opened JackSymbolTable
  import opened JackGrammar
  import T11 = JackTokenizer11

  /** The state a method leaves, or the exception it throws. */
  function Outcome(r: Result<()>, s: State): Result<State> {
    if r.Ok? then Ok(s) else Err(r.msg)
  }

  class CompilationEngine {
    const eng: Engine
    const jackTokenizer: T11.Tokenizer
    /** The tokenizer's list, each token with its type. */
    ghost const tks: seq<Token>
    const symbolTable: SymbolTable
    var indentCount: nat
    /** The lines of the XML file. */
    var output: seq<string>
    /** Whether `compileClass`, run by the constructor, threw. */
    var result: Result<()>

    ghost predicate Valid()
      reads jackTokenizer
    {
      jackTokenizer.Valid() && tks == Lex(jackTokenizer.tokens) && |tks| == |jackTokenizer.tokens| &&
      forall i :: 0 <= i < |tks| ==> tks[i].text == jackTokenizer.tokens[i]
    }

    ghost function Ts(): seq<Token> {
      tks
    }

    /** The current token and its type, as `JackGrammar` reads them. */
    lemma Cursor()
      requires Valid()
      ensures |Ts()| == |jackTokenizer.tokens|
      ensures Cur(Ts(), St()) == jackTokenizer.currentToken && Kind(Ts(), St()) == jackTokenizer.TokenType()
    {
      LexedCursor(jackTokenizer.tokens, St());
    }

    /** The state of the engine, as `JackGrammar` describes it. */
    function St(): State
      reads this, jackTokenizer, symbolTable
    {
      State(jackTokenizer.tokenCounter, indentCount, output, symbolTable.Tables())
    }

    /** The constructor tokenizes the content and compiles it as one class. */
    constructor (content: string, eng: Engine)
      requires T11.Tokens(content).Some?
      ensures this.eng == eng && jackTokenizer.tokens == T11.Tokens(content).value && Valid()
      ensures Outcome(result, St()) == Class(Lex(T11.Tokens(content).value), eng, State(0, 0, [], Empty))
    {
      this.eng := eng;
      var tokenizer := new T11.Tokenizer(content);
      jackTokenizer := tokenizer;
      tks := Lex(tokenizer.tokens);
      LexTexts(tokenizer.tokens);
      symbolTable := new SymbolTable();
      indentCount := 0;
      output := [];
      result := Ok(());
      new;
      result := CompileClass();
    }

    /** `ws.includes(currentToken)`. */
    function Includes(ws: seq<string>): bool
      reads jackTokenizer
    {
      jackTokenizer.currentToken.Some? && jackTokenizer.currentToken.value in ws
    }

    /** `currentToken === w`. */
    function IsCurrent(w: string): bool
      reads jackTokenizer
    {
      jackTokenizer.currentToken == Some(w)
    }

    // -------------------------------------------------------------------
    // Output

    method WriteElement(tagName: string, value: string)
      modifies this
      ensures St() == JackGrammar.WriteElement(old(St()), tagName, value)
    {
      output := output + [ElementLine(indentCount, tagName, value)];
    }

    method WriteIdentifier(name: string, isDefined: bool) returns (r: Result<()>)
      modifies this
      ensures Outcome(r, St()) == JackGrammar.WriteIdentifier(old(St()), name, isDefined)
    {
      var kind := symbolTable.KindOf(name);
      var typ := symbolTable.TypeOf(name);
      if typ.Err? {
        return Err(typ.msg);
      }
      var index := symbolTable.IndexOf(name).value;
      output := output + [IdentifierLine(indentCount, name, isDefined, typ.value, kind, index)];
      r := Ok(());
    }

    method WriteElementStart(tagName: string)
      modifies this
      ensures St() == WriteStart(old(St()), tagName)
    {
      output := output + [StartLine(indentCount, tagName)];
      indentCount := indentCount + 1;
    }

    method WriteElementEnd(tagName: string)
      requires indentCount > 0
      modifies this
      ensures St() == WriteEnd(old(St()), tagName)
    {
      indentCount := indentCount - 1;
      output := output + [EndLine(indentCount, tagName)];
    }

    // -------------------------------------------------------------------
    // Terminals

    method CheckToken(t: TokenType) returns (r: Result<()>)
      requires Valid()
      ensures r == JackGrammar.CheckToken(Ts(), St(), t)
    {
      Cursor();
      var token := jackTokenizer.currentToken;
      var found := jackTokenizer.TokenType();
      if found.Err? {
        return Err(found.msg);
      }
      if t != found.value {
        return Err("invalid token, token: " + JsText(token) + ", tokenType: " + TypeName(found.value) +
                   ", expected type: " + TypeName(t));
      }
      r := Ok(());
    }

    method CompileKeyword(keywords: seq<string>) returns (r: Result<()>)
      requires Valid()
      modifies this, jackTokenizer
      ensures Valid()
      ensures Outcome(r, St()) == JackGrammar.Keyword(Ts(), old(St()), keywords)
    {
      Cursor();
      var keyword := jackTokenizer.KeyWord();
      if keyword.Err? {
        return Err(keyword.msg);
      }
      if !(keyword.value.Some? && keyword.value.value in keywords) {
        return Err("invalid keyword, keyword: " + JsText(keyword.value) + ", expected keywords: " + Join(keywords, ","));
      }
      WriteElement("keyword", keyword.value.value);
      jackTokenizer.Advance();
      r := Ok(());
    }

    method CompileSymbol(symbols: seq<string>) returns (r: Result<()>)
      requires Valid()
      modifies this, jackTokenizer
      ensures Valid()
      ensures Outcome(r, St()) == JackGrammar.Symbol(Ts(), old(St()), symbols)
    {
      Cursor();
      var symbol := jackTokenizer.Symbol();
      if symbol.Err? {
        return Err(symbol.msg);
      }
      if !(symbol.value.Some? && symbol.value.value in symbols) {
        return Err("invalid symbol, symbol: " + JsText(symbol.value) + ", expected symbols: " + Join(symbols, ",") +
                   ", currentToken: " + JsText(jackTokenizer.currentToken));
      }
      WriteElement("symbol", Escape(symbol.value.value));
      jackTokenizer.Advance();
      r := Ok(());
    }

    method CompileIntegerConstant() returns (r: Result<()>)
      requires Valid()
      modifies this, jackTokenizer
      ensures Valid()
      ensures Outcome(r, St()) == IntegerConstant(Ts(), old(St()))
    {
      Cursor();
      r := CheckToken(IntConst);
      if r.Err? {
        return;
      }
      WriteElement("integerConstant", jackTokenizer.IntVal().value.value);
      jackTokenizer.Advance();
    }

    method CompileStringConstant() returns (r: Result<()>)
      requires Valid()
      modifies this, jackTokenizer
      ensures Valid()
      ensures Outcome(r, St()) == StringConstant(Ts(), old(St()))
    {
      r := CheckToken(StringConst);
      if r.Err? {
        return;
      }
      Cursor();
      StringValIsUnquoted(jackTokenizer.currentToken.value);
      WriteElement("stringConstant", jackTokenizer.StringVal().value.value);
      jackTokenizer.Advance();
    }

    method CompileIdentifier() returns (r: Result<()>)
      requires Valid()
      modifies this, jackTokenizer
      ensures Valid()
      ensures Outcome(r, St()) == JackGrammar.Identifier(Ts(), old(St()))
    {
      Cursor();
      r := CheckToken(JackLexicon.Identifier);
      if r.Err? {
        return;
      }
      WriteElement("identifier", jackTokenizer.Identifier().value.value);
      jackTokenizer.Advance();
    }

    /** `compileVarName(isDefined, type, kind)`: `decl` holds the type and
        the kind of a defining occurrence. */
    method CompileVarName(decl: Option<Decl>) returns (r: Result<()>)
      requires Valid()
      modifies this, jackTokenizer, symbolTable
      ensures Valid()
      ensures Outcome(r, St()) == VarName(Ts(), old(St()), decl)
    {
      Cursor();
      r := CheckToken(JackLexicon.Identifier);
      if r.Err? {
        return;
      }
      var name := jackTokenizer.Identifier().value.value;
      if decl.Some? {
        r := symbolTable.Define(name, decl.value.typ, decl.value.kind);
        if r.Err? {
          return;
        }
      }
      r := WriteIdentifier(name, decl.Some?);
      if r.Err? {
        return;
      }
      jackTokenizer.Advance();
    }

    /** A declared name: `compileIdentifier` in the analyzer,
        `compileVarName(true, type, kind)` in the compiler. */
    method CompileDeclaredName(decl: Decl) returns (r: Result<()>)
      requires Valid()
      modifies this, jackTokenizer, symbolTable
      ensures Valid()
      ensures Outcome(r, St()) == DeclaredName(Ts(), eng, old(St()), decl)
    {
      if eng == Compiler {
        r := CompileVarName(Some(decl));
      } else {
        r := CompileIdentifier();
      }
    }

    method CompileType() returns (r: Result<()>)
      requires Valid()
      modifies this, jackTokenizer
      ensures Valid()
      ensures Outcome(r, St()) == Type(Ts(), old(St()))
    {
      if Includes(TypeKeywords) {
        r := CompileKeyword(TypeKeywords);
      } else {
        r := CompileIdentifier();
      }
    }

    // -------------------------------------------------------------------
    // Program structure

    method CompileClass() returns (r: Result<()>)
      requires Valid()
      modifies this, jackTokenizer, symbolTable
      ensures Valid()
      ensures Outcome(r, St()) == Class(Ts(), eng, old(St()))
    {
      WriteElementStart("class");
      r := CompileKeyword(["class"]);
      if r.Err? {
        return;
      }
      r := CompileIdentifier();
      if r.Err? {
        return;
      }
      r := CompileSymbol(["{"]);
      if r.Err? {
        return;
      }
      r := CompileClassVarDecs();
      if r.Err? {
        return;
      }
      r := CompileSubroutines();
      if r.Err? {
        return;
      }
      r := CompileSymbol(["}"]);
      if r.Err? {
        return;
      }
      WriteElementEnd("class");
    }

    /** The loop of `compileClass` over class variable declarations. */
    method CompileClassVarDecs() returns (r: Result<()>)
      requires Valid()
      modifies this, jackTokenizer, symbolTable
      ensures Valid()
      ensures Outcome(r, St()) == ClassVarDecs(Ts(), eng, old(St()))
    {
      ghost var s := St();
      while Includes(ClassVarKeywords)
        invariant Valid()
        invariant ClassVarDecs(Ts(), eng, St()) == ClassVarDecs(Ts(), eng, s)
        decreases |Ts()| - jackTokenizer.tokenCounter
      {
        r := CompileClassVarDec();
        if r.Err? {
          return;
        }
      }
      r := Ok(());
    }

    /** The loop of `compileClass` over subroutine declarations. */
    method CompileSubroutines() returns (r: Result<()>)
      requires Valid()
      modifies this, jackTokenizer, symbolTable
      ensures Valid()
      ensures Outcome(r, St()) == Subroutines(Ts(), eng, old(St()))
    {
      ghost var s := St();
      while Includes(SubroutineKeywords)
        invariant Valid()
        invariant Subroutines(Ts(), eng, St()) == Subroutines(Ts(), eng, s)
        decreases |Ts()| - jackTokenizer.tokenCounter
      {
        r := CompileSubroutine();
        if r.Err? {
          return;
        }
      }
      r := Ok(());
    }

    method CompileClassVarDec() returns (r: Result<()>)
      requires Valid()
      modifies this, jackTokenizer, symbolTable
      ensures Valid()
      ensures Outcome(r, St()) == ClassVarDec(Ts(), eng, old(St()))
    {
      WriteElementStart("classVarDec");
      var kind := JsText(jackTokenizer.currentToken);
      r := CompileKeyword(ClassVarKeywords);
      if r.Err? {
        return;
      }
      var typ := JsText(jackTokenizer.currentToken);
      r := CompileType();
      if r.Err? {
        return;
      }
      r := CompileDeclaredName(Decl(typ, kind));
      if r.Err? {
        return;
      }
      r := CompileClassVarNames(Decl(typ, kind));
      if r.Err? {
        return;
      }
      r := CompileSymbol([";"]);
      if r.Err? {
        return;
      }
      WriteElementEnd("classVarDec");
    }

    /** The loop of `compileClassVarDec`: `, name` until the current token is
        `;`. */
    method CompileClassVarNames(decl: Decl) returns (r: Result<()>)
      requires Valid()
      modifies this, jackTokenizer, symbolTable
      ensures Valid()
      ensures Outcome(r, St()) == ClassVarNames(Ts(), eng, old(St()), decl)
    {
      ghost var s := St();
      while !IsCurrent(";")
        invariant Valid()
        invariant ClassVarNames(Ts(), eng, St(), decl) == ClassVarNames(Ts(), eng, s, decl)
        decreases |Ts()| - jackTokenizer.tokenCounter
      {
        r := CompileSymbol([","]);
        if r.Err? {
          return;
        }
        r := CompileDeclaredName(decl);
        if r.Err? {
          return;
        }
      }
      r := Ok(());
    }

    method CompileSubroutine() returns (r: Result<()>)
      requires Valid()
      modifies this, jackTokenizer, symbolTable
      ensures Valid()
      ensures Outcome(r, St()) == Subroutine(Ts(), eng, old(St()))
    {
      if eng == Compiler {
        symbolTable.StartSubroutine();
      }
      WriteElementStart("subroutineDec");
      r := CompileKeyword(SubroutineKeywords);
      if r.Err? {
        return;
      }
      r := CompileReturnType();
      if r.Err? {
        return;
      }
      r := CompileIdentifier();
      if r.Err? {
        return;
      }
      r := CompileParameterClause();
      if r.Err? {
        return;
      }
      r := CompileSubroutineBody();
      if r.Err? {
        return;
      }
      WriteElementEnd("subroutineDec");
    }

    /** The return type of `compileSubroutine`. */
    method CompileReturnType() returns (r: Result<()>)
      requires Valid()
      modifies this, jackTokenizer
      ensures Valid()
      ensures Outcome(r, St()) == ReturnType(Ts(), old(St()))
    {
      if IsCurrent("void") {
        r := CompileKeyword(ReturnTypeKeywords);
      } else {
        r := CompileType();
      }
    }

    /** `( parameterList )` of `compileSubroutine`. */
    method CompileParameterClause() returns (r: Result<()>)
      requires Valid()
      modifies this, jackTokenizer, symbolTable
      ensures Valid()
      ensures Outcome(r, St()) == ParameterClause(Ts(), eng, old(St()))
    {
      r := CompileSymbol(["("]);
      if r.Err? {
        return;
      }
      r := CompileParameterList();
      if r.Err? {
        return;
      }
      r := CompileSymbol([")"]);
    }

    /** One parameter, the step repeated by both loops of
        `compileParameterList`: the type token, then the name defined as an
        argument of that type. */
    method CompileParameter() returns (r: Result<()>)
      requires Valid()
      modifies this, jackTokenizer, symbolTable
      ensures Valid()
      ensures Outcome(r, St()) == Parameter(Ts(), eng, old(St()))
    {
      var typ := JsText(jackTokenizer.currentToken);
      r := CompileType();
      if r.Err? {
        return;
      }
      r := CompileDeclaredName(Decl(typ, Argument));
    }

    method CompileParameterList() returns (r: Result<()>)
      requires Valid()
      modifies this, jackTokenizer, symbolTable
      ensures Valid()
      ensures Outcome(r, St()) == ParameterList(Ts(), eng, old(St()))
    {
      WriteElementStart("parameterList");
      ghost var s1 := St();
      while true
        invariant Valid()
        invariant Parameters(Ts(), eng, St()) == Parameters(Ts(), eng, s1)
        decreases |Ts()| - jackTokenizer.tokenCounter
      {
        var more := Includes(TypeKeywords);
        if !more {
          Cursor();
          var t := jackTokenizer.TokenType();
          if t.Err? {
            return Err(t.msg);
          }
          more := t.value == JackLexicon.Identifier;
        }
        if !more {
          break;
        }
        r := CompileParameter();
        if r.Err? {
          return;
        }
        r := CompileMoreParameters();
        if r.Err? {
          return;
        }
      }
      WriteElementEnd("parameterList");
      r := Ok(());
    }

    /** The inner loop of `compileParameterList`. */
    method CompileMoreParameters() returns (r: Result<()>)
      requires Valid()
      modifies this, jackTokenizer, symbolTable
      ensures Valid()
      ensures Outcome(r, St()) == MoreParameters(Ts(), eng, old(St()))
    {
      ghost var s := St();
      while IsCurrent(",")
        invariant Valid()
        invariant MoreParameters(Ts(), eng, St()) == MoreParameters(Ts(), eng, s)
        decreases |Ts()| - jackTokenizer.tokenCounter
      {
        r := CompileSymbol([","]);
        if r.Err? {
          return;
        }
        r := CompileParameter();
        if r.Err? {
          return;
        }
      }
      r := Ok(());
    }

    method CompileSubroutineBody() returns (r: Result<()>)
      requires Valid()
      modifies this, jackTokenizer, symbolTable
      ensures Valid()
      ensures Outcome(r, St()) == SubroutineBody(Ts(), eng, old(St()))
    {
      WriteElementStart("subroutineBody");
      r := CompileSymbol(["{"]);
      if r.Err? {
        return;
      }
      r := CompileVarDecs();
      if r.Err? {
        return;
      }
      r := CompileStatements();
      if r.Err? {
        return;
      }
      r := CompileSymbol(["}"]);
      if r.Err? {
        return;
      }
      WriteElementEnd("subroutineBody");
    }

    /** The loop of `compileSubroutineBody` over `var` declarations. */
    method CompileVarDecs() returns (r: Result<()>)
      requires Valid()
      modifies this, jackTokenizer, symbolTable
      ensures Valid()
      ensures Outcome(r, St()) == VarDecs(Ts(), eng, old(St()))
    {
      ghost var s := St();
      while IsCurrent("var")
        invariant Valid()
        invariant VarDecs(Ts(), eng, St()) == VarDecs(Ts(), eng, s)
        decreases |Ts()| - jackTokenizer.tokenCounter
      {
        r := CompileVarDec();
        if r.Err? {
          return;
        }
      }
      r := Ok(());
    }

    method CompileVarDec() returns (r: Result<()>)
      requires Valid()
      modifies this, jackTokenizer, symbolTable
      ensures Valid()
      ensures Outcome(r, St()) == VarDec(Ts(), eng, old(St()))
    {
      WriteElementStart("varDec");
      r := CompileKeyword(["var"]);
      if r.Err? {
        return;
      }
      var typ := JsText(jackTokenizer.currentToken);
      r := CompileType();
      if r.Err? {
        return;
      }
      r := CompileDeclaredName(Decl(typ, Var));
      if r.Err? {
        return;
      }
      r := CompileVarNames(Decl(typ, Var));
      if r.Err? {
        return;
      }
      r := CompileSymbol([";"]);
      if r.Err? {
        return;
      }
      WriteElementEnd("varDec");
    }

    /** The loop of `compileVarDec`: `, name` while the current token is `,`. */
    method CompileVarNames(decl: Decl) returns (r: Result<()>)
      requires Valid()
      modifies this, jackTokenizer, symbolTable
      ensures Valid()
      ensures Outcome(r, St()) == VarNames(Ts(), eng, old(St()), decl)
    {
      ghost var s := St();
      while IsCurrent(",")
        invariant Valid()
        invariant VarNames(Ts(), eng, St(), decl) == VarNames(Ts(), eng, s, decl)
        decreases |Ts()| - jackTokenizer.tokenCounter
      {
        r := CompileSymbol([","]);
        if r.Err? {
          return;
        }
        r := CompileDeclaredName(decl);
        if r.Err? {
          return;
        }
      }
      r := Ok(());
    }

    // -------------------------------------------------------------------
    // Statements

    method CompileStatements() returns (r: Result<()>)
      requires Valid()
      modifies this, jackTokenizer, symbolTable
      ensures Valid()
      ensures Outcome(r, St()) == Statements(Ts(), eng, old(St()))
      decreases |Ts()| - jackTokenizer.tokenCounter, 3
    {
      WriteElementStart("statements");
      ghost var s1 := St();
      while Includes(StatementKeywords)
        invariant Valid()
        invariant StatementList(Ts(), eng, St()) == StatementList(Ts(), eng, s1)
        invariant s1.pos <= St().pos
        decreases |Ts()| - jackTokenizer.tokenCounter
      {
        r := CompileStatement();
        if r.Err? {
          return;
        }
      }
      WriteElementEnd("statements");
      r := Ok(());
    }

    /** The dispatch in the loop of `compileStatements`. */
    method CompileStatement() returns (r: Result<()>)
      requires Valid()
      modifies this, jackTokenizer, symbolTable
      ensures Valid()
      ensures Outcome(r, St()) == Statement(Ts(), eng, old(St()))
      decreases |Ts()| - jackTokenizer.tokenCounter, 1
    {
      if IsCurrent("let") {
        r := CompileLet();
      } else if IsCurrent("if") {
        r := CompileIf();
      } else if IsCurrent("while") {
        r := CompileWhile();
      } else if IsCurrent("do") {
        r := CompileDo();
      } else if IsCurrent("return") {
        r := CompileReturn();
      } else {
        r := Err("invalid statement, currentToken: " + JsText(jackTokenizer.currentToken));
      }
    }

    method CompileDo() returns (r: Result<()>)
      requires Valid()
      modifies this, jackTokenizer, symbolTable
      ensures Valid()
      ensures Outcome(r, St()) == Do(Ts(), eng, old(St()))
      decreases |Ts()| - jackTokenizer.tokenCounter, 0
    {
      WriteElementStart("doStatement");
      r := CompileKeyword(["do"]);
      if r.Err? {
        return;
      }
      r := CompileSubroutineCall();
      if r.Err? {
        return;
      }
      r := CompileSymbol([";"]);
      if r.Err? {
        return;
      }
      WriteElementEnd("doStatement");
    }

    method CompileLet() returns (r: Result<()>)
      requires Valid()
      modifies this, jackTokenizer, symbolTable
      ensures Valid()
      ensures Outcome(r, St()) == Let(Ts(), eng, old(St()))
      decreases |Ts()| - jackTokenizer.tokenCounter, 0
    {
      WriteElementStart("letStatement");
      r := CompileKeyword(["let"]);
      if r.Err? {
        return;
      }
      r := CompileLetTarget();
      if r.Err? {
        return;
      }
      r := CompileSymbol(["="]);
      if r.Err? {
        return;
      }
      r := CompileExpression();
      if r.Err? {
        return;
      }
      r := CompileSymbol([";"]);
      if r.Err? {
        return;
      }
      WriteElementEnd("letStatement");
    }

    /** The target of `compileLet` and the loop over its indices. */
    method CompileLetTarget() returns (r: Result<()>)
      requires Valid()
      modifies this, jackTokenizer, symbolTable
      ensures Valid()
      ensures Outcome(r, St()) == LetTarget(Ts(), eng, old(St()))
    {
      ghost var s := St();
      if eng == Compiler {
        r := CompileVarName(None);
      } else {
        r := CompileIdentifier();
      }
      if r.Err? {
        return;
      }
      ghost var s1 := St();
      while !IsCurrent("=")
        invariant Valid()
        invariant LetIndices(Ts(), eng, St()) == LetIndices(Ts(), eng, s1)
        invariant s.pos < St().pos
        decreases |Ts()| - jackTokenizer.tokenCounter
      {
        r := CompileSymbol(["["]);
        if r.Err? {
          return;
        }
        r := CompileExpression();
        if r.Err? {
          return;
        }
        r := CompileSymbol(["]"]);
        if r.Err? {
          return;
        }
      }
      r := Ok(());
    }

    method CompileWhile() returns (r: Result<()>)
      requires Valid()
      modifies this, jackTokenizer, symbolTable
      ensures Valid()
      ensures Outcome(r, St()) == While(Ts(), eng, old(St()))
      decreases |Ts()| - jackTokenizer.tokenCounter, 0
    {
      WriteElementStart("whileStatement");
      r := CompileKeyword(["while"]);
      if r.Err? {
        return;
      }
      r := CompileParenthesized();
      if r.Err? {
        return;
      }
      r := CompileBlock();
      if r.Err? {
        return;
      }
      WriteElementEnd("whileStatement");
    }

    method CompileReturn() returns (r: Result<()>)
      requires Valid()
      modifies this, jackTokenizer, symbolTable
      ensures Valid()
      ensures Outcome(r, St()) == Return(Ts(), eng, old(St()))
      decreases |Ts()| - jackTokenizer.tokenCounter, 0
    {
      ghost var s := St();
      WriteElementStart("returnStatement");
      r := CompileKeyword(["return"]);
      if r.Err? {
        return;
      }
      ghost var s1 := St();
      while !IsCurrent(";")
        invariant Valid()
        invariant ReturnValues(Ts(), eng, St()) == ReturnValues(Ts(), eng, s1)
        invariant s.pos < St().pos
        decreases |Ts()| - jackTokenizer.tokenCounter
      {
        r := CompileExpression();
        if r.Err? {
          return;
        }
      }
      r := CompileSymbol([";"]);
      if r.Err? {
        return;
      }
      WriteElementEnd("returnStatement");
    }

    method CompileIf() returns (r: Result<()>)
      requires Valid()
      modifies this, jackTokenizer, symbolTable
      ensures Valid()
      ensures Outcome(r, St()) == If(Ts(), eng, old(St()))
      decreases |Ts()| - jackTokenizer.tokenCounter, 0
    {
      WriteElementStart("ifStatement");
      r := CompileKeyword(["if"]);
      if r.Err? {
        return;
      }
      r := CompileParenthesized();
      if r.Err? {
        return;
      }
      r := CompileBlock();
      if r.Err? {
        return;
      }
      r := CompileElse();
      if r.Err? {
        return;
      }
      WriteElementEnd("ifStatement");
    }

    /** `{ statements }`. */
    method CompileBlock() returns (r: Result<()>)
      requires Valid()
      modifies this, jackTokenizer, symbolTable
      ensures Valid()
      ensures Outcome(r, St()) == Block(Ts(), eng, old(St()))
      decreases |Ts()| - jackTokenizer.tokenCounter, 0
    {
      r := CompileSymbol(["{"]);
      if r.Err? {
        return;
      }
      r := CompileStatements();
      if r.Err? {
        return;
      }
      r := CompileSymbol(["}"]);
    }

    /** The optional `else { statements }`. */
    method CompileElse() returns (r: Result<()>)
      requires Valid()
      modifies this, jackTokenizer, symbolTable
      ensures Valid()
      ensures Outcome(r, St()) == Else(Ts(), eng, old(St()))
      decreases |Ts()| - jackTokenizer.tokenCounter, 0
    {
      if IsCurrent("else") {
        r := CompileKeyword(["else"]);
        if r.Err? {
          return;
        }
        r := CompileBlock();
      } else {
        r := Ok(());
      }
    }

    // -------------------------------------------------------------------
    // Expressions

    method CompileSubroutineCall() returns (r: Result<()>)
      requires Valid()
      modifies this, jackTokenizer, symbolTable
      ensures Valid()
      ensures Outcome(r, St()) == SubroutineCall(Ts(), eng, old(St()))
      decreases |Ts()| - jackTokenizer.tokenCounter, 0
    {
      r := CompileIdentifier();
      if r.Err? {
        return;
      }
      if IsCurrent(".") {
        r := CompileSymbol(["."]);
        if r.Err? {
          return;
        }
        r := CompileIdentifier();
        if r.Err? {
          return;
        }
      }
      r := CompileArguments();
    }

    method CompileExpressionList() returns (r: Result<()>)
      requires Valid()
      modifies this, jackTokenizer, symbolTable
      ensures Valid()
      ensures Outcome(r, St()) == ExpressionList(Ts(), eng, old(St()))
      decreases |Ts()| - jackTokenizer.tokenCounter, 4
    {
      WriteElementStart("expressionList");
      ghost var s1 := St();
      while !IsCurrent(")")
        invariant Valid()
        invariant ExpressionLoop(Ts(), eng, St()) == ExpressionLoop(Ts(), eng, s1)
        invariant s1.pos <= St().pos
        decreases |Ts()| - jackTokenizer.tokenCounter
      {
        r := CompileExpression();
        if r.Err? {
          return;
        }
        r := CompileMoreExpressions();
        if r.Err? {
          return;
        }
      }
      WriteElementEnd("expressionList");
      r := Ok(());
    }

    /** The inner loop of `compileExpressionList`. */
    method CompileMoreExpressions() returns (r: Result<()>)
      requires Valid()
      modifies this, jackTokenizer, symbolTable
      ensures Valid()
      ensures Outcome(r, St()) == MoreExpressions(Ts(), eng, old(St()))
      decreases |Ts()| - jackTokenizer.tokenCounter, 3
    {
      ghost var s := St();
      while IsCurrent(",")
        invariant Valid()
        invariant MoreExpressions(Ts(), eng, St()) == MoreExpressions(Ts(), eng, s)
        invariant s.pos <= St().pos
        decreases |Ts()| - jackTokenizer.tokenCounter
      {
        r := CompileSymbol([","]);
        if r.Err? {
          return;
        }
        r := CompileExpression();
        if r.Err? {
          return;
        }
      }
      r := Ok(());
    }

    method CompileExpression() returns (r: Result<()>)
      requires Valid()
      modifies this, jackTokenizer, symbolTable
      ensures Valid()
      ensures Outcome(r, St()) == Expression(Ts(), eng, old(St()))
      decreases |Ts()| - jackTokenizer.tokenCounter, 2
    {
      ghost var s := St();
      WriteElementStart("expression");
      r := CompileTerm();
      if r.Err? {
        return;
      }
      ghost var s1 := St();
      while Includes(Ops)
        invariant Valid()
        invariant OpTerms(Ts(), eng, St()) == OpTerms(Ts(), eng, s1)
        invariant s.pos < St().pos
        decreases |Ts()| - jackTokenizer.tokenCounter
      {
        r := CompileSymbol(Ops);
        if r.Err? {
          return;
        }
        r := CompileTerm();
        if r.Err? {
          return;
        }
      }
      WriteElementEnd("expression");
      r := Ok(());
    }

    /** `compileTerm`. The source calls `tokenType()` once per test; the
        calls agree, so it is called once here. */
    method CompileTerm() returns (r: Result<()>)
      requires Valid()
      modifies this, jackTokenizer, symbolTable
      ensures Valid()
      ensures Outcome(r, St()) == Term(Ts(), eng, old(St()))
      decreases |Ts()| - jackTokenizer.tokenCounter, 1
    {
      WriteElementStart("term");
      Cursor();
      var t := jackTokenizer.TokenType();
      if t.Err? {
        return Err(t.msg);
      }
      if t.value == IntConst {
        r := CompileIntegerConstant();
      } else if t.value == StringConst {
        r := CompileStringConstant();
      } else if Includes(KeywordConstants) {
        r := CompileKeyword(KeywordConstants);
      } else if t.value == JackLexicon.Identifier {
        r := CompileNameTerm();
      } else if IsCurrent("(") {
        r := CompileParenthesized();
      } else if Includes(UnaryOps) {
        r := CompileUnary();
      } else {
        r := Err("invalid term: " + JsText(jackTokenizer.currentToken));
      }
      if r.Err? {
        return;
      }
      WriteElementEnd("term");
    }

    /** The name branch of `compileTerm`. */
    method CompileNameTerm() returns (r: Result<()>)
      requires Valid() && jackTokenizer.TokenType() == Ok(JackLexicon.Identifier)
      modifies this, jackTokenizer, symbolTable
      ensures Valid()
      ensures Outcome(r, St()) == NameTerm(Ts(), eng, old(St()))
      decreases |Ts()| - jackTokenizer.tokenCounter, 0
    {
      var name := TypeName(jackTokenizer.TokenType().value);
      if eng == Compiler && symbolTable.KindOf(name) != NoKind {
        r := CompileVarName(None);
      } else {
        r := CompileIdentifier();
      }
      if r.Err? {
        return;
      }
      r := CompileNameSuffix();
    }

    /** The tests of `compileTerm` after a name. */
    method CompileNameSuffix() returns (r: Result<()>)
      requires Valid()
      modifies this, jackTokenizer, symbolTable
      ensures Valid()
      ensures Outcome(r, St()) == NameSuffix(Ts(), eng, old(St()))
      decreases |Ts()| - jackTokenizer.tokenCounter, 1
    {
      if IsCurrent("[") {
        r := CompileSymbol(["["]);
        if r.Err? {
          return;
        }
        r := CompileExpression();
        if r.Err? {
          return;
        }
        r := CompileSymbol(["]"]);
      } else if IsCurrent("(") {
        r := CompileArguments();
      } else if IsCurrent(".") {
        r := CompileSymbol(["."]);
        if r.Err? {
          return;
        }
        r := CompileIdentifier();
        if r.Err? {
          return;
        }
        r := CompileArguments();
      } else {
        r := Ok(());
      }
    }

    /** `( expressionList )`. */
    method CompileArguments() returns (r: Result<()>)
      requires Valid()
      modifies this, jackTokenizer, symbolTable
      ensures Valid()
      ensures Outcome(r, St()) == Arguments(Ts(), eng, old(St()))
      decreases |Ts()| - jackTokenizer.tokenCounter, 0
    {
      r := CompileSymbol(["("]);
      if r.Err? {
        return;
      }
      r := CompileExpressionList();
      if r.Err? {
        return;
      }
      r := CompileSymbol([")"]);
    }

    /** The parenthesis branch of `compileTerm`. */
    method CompileParenthesized() returns (r: Result<()>)
      requires Valid()
      modifies this, jackTokenizer, symbolTable
      ensures Valid()
      ensures Outcome(r, St()) == Parenthesized(Ts(), eng, old(St()))
      decreases |Ts()| - jackTokenizer.tokenCounter, 0
    {
      r := CompileSymbol(["("]);
      if r.Err? {
        return;
      }
      r := CompileExpression();
      if r.Err? {
        return;
      }
      r := CompileSymbol([")"]);
    }

    /** The unary-operator branch of `compileTerm`. */
    method CompileUnary() returns (r: Result<()>)
      requires Valid()
      modifies this, jackTokenizer, symbolTable
      ensures Valid()
      ensures Outcome(r, St()) == Unary(Ts(), eng, old(St()))
      decreases |Ts()| - jackTokenizer.tokenCounter, 0
    {
      r := CompileSymbol(UnaryOps);
      if r.Err? {
        return;
      }
      r := CompileTerm();
    }
  }
}
