/** What the two compilation engines of projects 11 promise, proved of
    the functions of `JackGrammar` (and so, through the engine's
    postconditions, of the `compile…` methods of `JackEngine`). */
module JackGrammarProperties {
  import opened Wrappers
  import opened Text
  import opened JackLexicon
  import opened JackSymbolTable
  import opened JackGrammar

  // ---------------------------------------------------------------------
  // Terminals

  /** Over the tokenizer's list, `compileKeyword` succeeds exactly when the
      current token is one of the expected words and a keyword. */
  lemma LexedKeyword(ts: seq<string>, s: State, keywords: seq<string>)
    requires s.pos <= |ts|
    ensures |Lex(ts)| == |ts|
    ensures JackGrammar.Keyword(Lex(ts), s, keywords).Ok? <==> s.pos < |ts| && ts[s.pos] in keywords && IsKeyword(ts[s.pos])
  {
    LexedCursor(ts, s);
    TokenTypeSpec(TokenAt(ts, s.pos));
  }

  /** Over the tokenizer's list, `compileSymbol` succeeds exactly when the
      current token is one of the expected symbols and a symbol. */
  lemma LexedSymbol(ts: seq<string>, s: State, symbols: seq<string>)
    requires s.pos <= |ts|
    ensures |Lex(ts)| == |ts|
    ensures JackGrammar.Symbol(Lex(ts), s, symbols).Ok? <==> s.pos < |ts| && ts[s.pos] in symbols && IsSymbol(ts[s.pos])
  {
    LexedCursor(ts, s);
    TokenTypeSpec(TokenAt(ts, s.pos));
  }

  /** Over the tokenizer's list, `checkToken(t)` passes exactly when
      `tokenType()` gives `t`. */
  lemma LexedCheckToken(ts: seq<string>, s: State, t: TokenType)
    ensures CheckToken(Lex(ts), s, t).Ok? <==> TokenTypeOf(TokenAt(ts, s.pos)) == Ok(t)
  {
    LexedCursor(ts, s);
  }

  /** A keyword is written as one `<keyword>` line at the current depth,
      and the cursor moves on by one token; nothing else changes. */
  lemma KeywordLine(ts: seq<Token>, s: State, keywords: seq<string>)
    requires s.pos <= |ts| && JackGrammar.Keyword(ts, s, keywords).Ok?
    ensures JackGrammar.Keyword(ts, s, keywords).value ==
      s.(pos := s.pos + 1, out := s.out + [ElementLine(s.indent, "keyword", ts[s.pos].text)])
  {
  }

  /** A symbol is written as one `<symbol>` line holding its escaped form,
      which reads back as the symbol itself (`EscapeReadsBack`), and the
      cursor moves on by one token. */
  lemma SymbolLine(ts: seq<Token>, s: State, symbols: seq<string>)
    requires s.pos <= |ts| && JackGrammar.Symbol(ts, s, symbols).Ok?
    ensures JackGrammar.Symbol(ts, s, symbols).value ==
      s.(pos := s.pos + 1, out := s.out + [ElementLine(s.indent, "symbol", Escape(ts[s.pos].text))])
  {
  }

  // ---------------------------------------------------------------------
  // Program structure

  /** `compileClass` accepts `class`, a class name, `{`, then the
      declarations, then `}`. */
  lemma ClassShape(ts: seq<Token>, eng: Engine, s: State)
    requires s.pos <= |ts| && Class(ts, eng, s).Ok?
    ensures var r := Class(ts, eng, s).value;
      && s.pos + 4 <= r.pos
      && ts[s.pos].text == "class" && ts[s.pos].kind == Ok(JackLexicon.Keyword)
      && ts[s.pos + 1].kind == Ok(JackLexicon.Identifier)
      && ts[s.pos + 2].text == "{" && ts[r.pos - 1].text == "}"
      && r.indent == s.indent
  {
    var s1 := JackGrammar.Keyword(ts, WriteStart(s, "class"), ["class"]).value;
    var s2 := JackGrammar.Identifier(ts, s1).value;
    var s3 := JackGrammar.Symbol(ts, s2, ["{"]).value;
    var s4 := ClassVarDecs(ts, eng, s3).value;
    var s5 := Subroutines(ts, eng, s4).value;
    assert JackGrammar.Symbol(ts, s5, ["}"]).Ok?;
  }

  /** Any other first token makes `compileClass` throw. */
  lemma ClassRejects(ts: seq<Token>, eng: Engine, s: State)
    requires s.pos <= |ts| && !At(ts, s, "class")
    ensures Class(ts, eng, s).Err?
  {
  }

  /** The class-variable loop of `compileClass` ends at a token that is
      neither `static` nor `field`. */
  lemma {:induction false} ClassVarDecsEnd(ts: seq<Token>, eng: Engine, s: State)
    requires s.pos <= |ts| && ClassVarDecs(ts, eng, s).Ok?
    ensures !AtOneOf(ts, ClassVarDecs(ts, eng, s).value, ClassVarKeywords)
    decreases |ts| - s.pos
  {
    if AtOneOf(ts, s, ClassVarKeywords) {
      ClassVarDecsEnd(ts, eng, ClassVarDec(ts, eng, s).value);
    }
  }

  /** The subroutine loop of `compileClass` ends at a token that does not
      start a subroutine. */
  lemma {:induction false} SubroutinesEnd(ts: seq<Token>, eng: Engine, s: State)
    requires s.pos <= |ts| && Subroutines(ts, eng, s).Ok?
    ensures !AtOneOf(ts, Subroutines(ts, eng, s).value, SubroutineKeywords)
    decreases |ts| - s.pos
  {
    if AtOneOf(ts, s, SubroutineKeywords) {
      SubroutinesEnd(ts, eng, Subroutine(ts, eng, s).value);
    }
  }

  /** The names of a declaration list: the texts at `p`, `p + 2`, ...
      below `q`. */
  function CommaNames(ts: seq<Token>, p: nat, q: nat): seq<string>
    requires q <= |ts|
    decreases q - p
  {
    if p < q then [ts[p].text] + CommaNames(ts, p + 2, q) else []
  }

  /** A declared name of the compiler is defined with the declaration's
      type and kind. */
  lemma DeclaredNameDefines(ts: seq<Token>, s: State, decl: Decl)
    requires s.pos <= |ts| && DeclaredName(ts, Compiler, s, decl).Ok?
    ensures s.pos < |ts|
    ensures s.scopes.Define(ts[s.pos].text, decl.typ, decl.kind) == Ok(DeclaredName(ts, Compiler, s, decl).value.scopes)
  {
  }

  /** Defining `x` and then the list `names` is defining `[x] + names`. */
  lemma DefineAllCons(t: Scopes, x: string, names: seq<string>, typ: string, kind: string, t1: Scopes)
    requires t.Define(x, typ, kind) == Ok(t1)
    ensures DefineAll(t, [x] + names, typ, kind) == DefineAll(t1, names, typ, kind)
  {
    assert ([x] + names)[1..] == names;
  }

  /** The loop of `compileVarDec` defines each name it reads, in order, with
      the shared type and kind. */
  lemma {:induction false} VarNamesDefine(ts: seq<Token>, s: State, decl: Decl)
    requires s.pos <= |ts| && VarNames(ts, Compiler, s, decl).Ok?
    ensures var r := VarNames(ts, Compiler, s, decl).value;
      DefineAll(s.scopes, CommaNames(ts, s.pos + 1, r.pos), decl.typ, decl.kind) == Ok(r.scopes)
    decreases |ts| - s.pos
  {
    if At(ts, s, ",") {
      var s1 := JackGrammar.Symbol(ts, s, [","]).value;
      var s2 := DeclaredName(ts, Compiler, s1, decl).value;
      DeclaredNameDefines(ts, s1, decl);
      VarNamesDefine(ts, s2, decl);
      var r := VarNames(ts, Compiler, s2, decl).value;
      DefineAllCons(s.scopes, ts[s.pos + 1].text, CommaNames(ts, s.pos + 3, r.pos), decl.typ, decl.kind, s2.scopes);
    }
  }

  /** The loop of `compileClassVarDec` defines each name it reads, in order,
      with the shared type and kind. */
  lemma {:induction false} ClassVarNamesDefine(ts: seq<Token>, s: State, decl: Decl)
    requires s.pos <= |ts| && ClassVarNames(ts, Compiler, s, decl).Ok?
    ensures var r := ClassVarNames(ts, Compiler, s, decl).value;
      DefineAll(s.scopes, CommaNames(ts, s.pos + 1, r.pos), decl.typ, decl.kind) == Ok(r.scopes)
    decreases |ts| - s.pos
  {
    if !At(ts, s, ";") {
      var s1 := JackGrammar.Symbol(ts, s, [","]).value;
      var s2 := DeclaredName(ts, Compiler, s1, decl).value;
      DeclaredNameDefines(ts, s1, decl);
      ClassVarNamesDefine(ts, s2, decl);
      var r := ClassVarNames(ts, Compiler, s2, decl).value;
      DefineAllCons(s.scopes, ts[s.pos + 1].text, CommaNames(ts, s.pos + 3, r.pos), decl.typ, decl.kind, s2.scopes);
    }
  }

  /** A first name defined as `decl`, followed by a list of further names
      defined as `decl`, defines all the names of the declaration. */
  lemma FirstAndMoreNames(ts: seq<Token>, decl: Decl, s2: State, s3: State, s4: State)
    requires s2.pos < s3.pos == s2.pos + 1 <= s4.pos <= |ts|
    requires s2.scopes.Define(ts[s2.pos].text, decl.typ, decl.kind) == Ok(s3.scopes)
    requires DefineAll(s3.scopes, CommaNames(ts, s3.pos + 1, s4.pos), decl.typ, decl.kind) == Ok(s4.scopes)
    ensures DefineAll(s2.scopes, CommaNames(ts, s2.pos, s4.pos), decl.typ, decl.kind) == Ok(s4.scopes)
  {
    var rest := CommaNames(ts, s2.pos + 2, s4.pos);
    assert CommaNames(ts, s2.pos, s4.pos) == [ts[s2.pos].text] + rest;
    DefineAllCons(s2.scopes, ts[s2.pos].text, rest, decl.typ, decl.kind, s3.scopes);
  }

  /** The names of a `var` statement, from the first one on, defined in
      turn: the names at `p` up to `q` take the tables `t` to `t'`. */
  lemma VarDecNames(ts: seq<Token>, decl: Decl, s2: State, s3: State, s4: State,
                    p: nat, q: nat, typ: string, kind: string, t: Scopes, t': Scopes)
    requires s2.pos <= |ts| && DeclaredName(ts, Compiler, s2, decl) == Ok(s3)
    requires s3.pos <= |ts| && VarNames(ts, Compiler, s3, decl) == Ok(s4)
    requires p == s2.pos && q == s4.pos && typ == decl.typ && kind == decl.kind && t == s2.scopes && t' == s4.scopes
    ensures q <= |ts|
    ensures DefineAll(t, CommaNames(ts, p, q), typ, kind) == Ok(t')
  {
    DeclaredNameDefines(ts, s2, decl);
    VarNamesDefine(ts, s3, decl);
    FirstAndMoreNames(ts, decl, s2, s3, s4);
  }

  /** The names of a class variable declaration, from the first one on,
      defined in turn: the names at `p` up to `q` take the tables `t` to
      `t'`. */
  lemma ClassVarDecNames(ts: seq<Token>, decl: Decl, s2: State, s3: State, s4: State,
                         p: nat, q: nat, typ: string, kind: string, t: Scopes, t': Scopes)
    requires s2.pos <= |ts| && DeclaredName(ts, Compiler, s2, decl) == Ok(s3)
    requires s3.pos <= |ts| && ClassVarNames(ts, Compiler, s3, decl) == Ok(s4)
    requires p == s2.pos && q == s4.pos && typ == decl.typ && kind == decl.kind && t == s2.scopes && t' == s4.scopes
    ensures q <= |ts|
    ensures DefineAll(t, CommaNames(ts, p, q), typ, kind) == Ok(t')
  {
    DeclaredNameDefines(ts, s2, decl);
    ClassVarNamesDefine(ts, s3, decl);
    FirstAndMoreNames(ts, decl, s2, s3, s4);
  }

  /** `compileVarDec` of the compiler defines every name of the statement,
      in order, as a `var` of the type token that follows `var`. */
  lemma VarDecDefines(ts: seq<Token>, s: State, r: State)
    requires s.pos <= |ts| && VarDec(ts, Compiler, s) == Ok(r)
    ensures s.pos + 4 <= r.pos
    ensures DefineAll(s.scopes, CommaNames(ts, s.pos + 2, r.pos - 1), ts[s.pos + 1].text, Var) == Ok(r.scopes)
  {
    var decl, s2, s3, s4 := VarDecSteps(ts, Compiler, s, r);
    VarDecNames(ts, decl, s2, s3, s4, s.pos + 2, r.pos - 1, ts[s.pos + 1].text, Var, s.scopes, r.scopes);
  }

  /** The intermediate states of `compileVarDec`. */
  lemma VarDecSteps(ts: seq<Token>, eng: Engine, s: State, r: State) returns (decl: Decl, s2: State, s3: State, s4: State)
    requires s.pos <= |ts| && VarDec(ts, eng, s) == Ok(r)
    ensures decl == Decl(ts[s.pos + 1].text, Var) && s2.pos == s.pos + 2 && s2.scopes == s.scopes
    ensures DeclaredName(ts, eng, s2, decl) == Ok(s3) && s3.pos <= |ts| && VarNames(ts, eng, s3, decl) == Ok(s4)
    ensures r.pos == s4.pos + 1 && r.scopes == s4.scopes
  {
    var s1 := JackGrammar.Keyword(ts, WriteStart(s, "varDec"), ["var"]).value;
    assert s1.pos == s.pos + 1 && s1.scopes == s.scopes;
    decl := Decl(JsText(Cur(ts, s1)), Var);
    s2 := Type(ts, s1).value;
    assert decl.typ == ts[s.pos + 1].text by {
      assert s1.pos < |ts| && Cur(ts, s1) == Some(ts[s1.pos].text);
    }
    s3 := DeclaredName(ts, eng, s2, decl).value;
    s4 := VarNames(ts, eng, s3, decl).value;
    var s5 := JackGrammar.Symbol(ts, s4, [";"]).value;
    assert r == WriteEnd(s5, "varDec");
  }

  /** `compileClassVarDec` of the compiler defines every name of the
      declaration, in order, with the kind token (`static` or `field`) and
      the type token it starts with. */
  lemma ClassVarDecDefines(ts: seq<Token>, s: State, r: State)
    requires s.pos <= |ts| && ClassVarDec(ts, Compiler, s) == Ok(r)
    ensures s.pos + 4 <= r.pos && ts[s.pos].text in ClassVarKeywords
    ensures DefineAll(s.scopes, CommaNames(ts, s.pos + 2, r.pos - 1), ts[s.pos + 1].text, ts[s.pos].text) == Ok(r.scopes)
  {
    var decl, s2, s3, s4 := ClassVarDecSteps(ts, Compiler, s, r);
    ClassVarDecNames(ts, decl, s2, s3, s4, s.pos + 2, r.pos - 1, ts[s.pos + 1].text, ts[s.pos].text, s.scopes, r.scopes);
  }

  /** The intermediate states of `compileClassVarDec`. */
  lemma ClassVarDecSteps(ts: seq<Token>, eng: Engine, s: State, r: State) returns (decl: Decl, s2: State, s3: State, s4: State)
    requires s.pos <= |ts| && ClassVarDec(ts, eng, s) == Ok(r)
    ensures s.pos < |ts| && ts[s.pos].text in ClassVarKeywords
    ensures decl == Decl(ts[s.pos + 1].text, ts[s.pos].text) && s2.pos == s.pos + 2 && s2.scopes == s.scopes
    ensures DeclaredName(ts, eng, s2, decl) == Ok(s3) && s3.pos <= |ts| && ClassVarNames(ts, eng, s3, decl) == Ok(s4)
    ensures r.pos == s4.pos + 1 && r.scopes == s4.scopes
  {
    var s0 := WriteStart(s, "classVarDec");
    var s1 := JackGrammar.Keyword(ts, s0, ClassVarKeywords).value;
    decl := Decl(JsText(Cur(ts, s1)), JsText(Cur(ts, s0)));
    s2 := Type(ts, s1).value;
    ClassVarDecHead(ts, s, s1, s2);
    s3 := DeclaredName(ts, eng, s2, decl).value;
    s4 := ClassVarNames(ts, eng, s3, decl).value;
    var s5 := JackGrammar.Symbol(ts, s4, [";"]).value;
    assert r == WriteEnd(s5, "classVarDec");
  }

  /** The kind keyword and the type of a class variable declaration are
      the two tokens where it starts. */
  lemma ClassVarDecHead(ts: seq<Token>, s: State, s1: State, s2: State)
    requires s.pos <= |ts| && JackGrammar.Keyword(ts, WriteStart(s, "classVarDec"), ClassVarKeywords) == Ok(s1)
    requires Type(ts, s1) == Ok(s2)
    ensures s.pos < |ts| && ts[s.pos].text in ClassVarKeywords
    ensures s2.pos == s.pos + 2 && s2.scopes == s.scopes
    ensures Decl(JsText(Cur(ts, s1)), JsText(Cur(ts, WriteStart(s, "classVarDec")))) == Decl(ts[s.pos + 1].text, ts[s.pos].text)
  {
    var s0 := WriteStart(s, "classVarDec");
    assert s0.pos == s.pos && s1.pos == s.pos + 1 && s1.scopes == s.scopes;
    assert s1.pos < |ts| && Cur(ts, s0) == Some(ts[s0.pos].text) && Cur(ts, s1) == Some(ts[s1.pos].text);
  }

  /** `compileSubroutine` of the compiler starts a fresh subroutine scope:
      what it does cannot depend on the argument and var tables it finds. */
  lemma SubroutineForgetsScope(ts: seq<Token>, s: State, args: Table, vars: Table)
    requires s.pos <= |ts|
    ensures Subroutine(ts, Compiler, s) == Subroutine(ts, Compiler, s.(scopes := s.scopes.(args := args, vars := vars)))
  {
    assert s.scopes.(args := args, vars := vars).StartSubroutine() == s.scopes.StartSubroutine();
  }

  /** The parameter list is compiled in a scope whose argument table was
      just emptied, and nothing before it defines a name. */
  lemma SubroutineParametersStartEmpty(ts: seq<Token>, s: State)
    requires s.pos <= |ts| && Subroutine(ts, Compiler, s).Ok?
    ensures var s0 := WriteStart(s.(scopes := s.scopes.StartSubroutine()), "subroutineDec");
      var s3 := JackGrammar.Identifier(ts, ReturnType(ts, JackGrammar.Keyword(ts, s0, SubroutineKeywords).value).value).value;
      s3.pos == s.pos + 3 && s3.scopes.args == map[] && ParameterClause(ts, Compiler, s3).Ok?
  {
  }

  /** In an empty argument table, the first parameter is an `argument` of
      its type token with index 0: no implicit receiver comes before it. */
  lemma FirstParameter(ts: seq<Token>, s: State)
    requires s.pos <= |ts| && s.scopes.args == map[] && Parameter(ts, Compiler, s).Ok?
    ensures s.pos + 1 < |ts|
    ensures var r := Parameter(ts, Compiler, s).value; var name := ts[s.pos + 1].text;
      && r.scopes.KindOf(name) == Argument && r.scopes.TypeOf(name) == Ok(ts[s.pos].text)
      && r.scopes.IndexOf(name) == Ok(0)
  {
    var decl := Decl(JsText(Cur(ts, s)), Argument);
    var s1 := Type(ts, s).value;
    DeclaredNameDefines(ts, s1, decl);
  }

  /** A `,` the tokenizer classified as a symbol. */
  predicate IsComma(t: Token) {
    t.text == "," && t.kind == Ok(JackLexicon.Symbol)
  }

  /** The parameters written in the tokens from `p` up to `q`, read left to
      right: a comma is skipped, and any other token is a type followed by
      a name. The pairs are (type, name). */
  function ParameterDecls(ts: seq<Token>, p: nat, q: nat): seq<(string, string)>
    requires q <= |ts|
    decreases q - p
  {
    if p < q && IsComma(ts[p]) then ParameterDecls(ts, p + 1, q)
    else if p + 1 < q then [(ts[p].text, ts[p + 1].text)] + ParameterDecls(ts, p + 2, q)
    else []
  }

  /** One parameter of the compiler: the name after the type token is
      defined as an `argument` of that type; the type token is no comma. */
  lemma ParameterDefines(ts: seq<Token>, s: State)
    requires s.pos <= |ts| && Parameter(ts, Compiler, s).Ok?
    ensures s.pos + 1 < |ts| && !IsComma(ts[s.pos])
    ensures s.scopes.Define(ts[s.pos + 1].text, ts[s.pos].text, Argument) == Ok(Parameter(ts, Compiler, s).value.scopes)
  {
    var decl := Decl(JsText(Cur(ts, s)), Argument);
    var s1 := Type(ts, s).value;
    DeclaredNameDefines(ts, s1, decl);
  }

  /** The `, type name` loop of `compileParameterList` defines the
      parameters it reads, in order: defining the parameters written from
      its start on is defining those written from its end on, after it. */
  lemma {:induction false} MoreParametersDefine(ts: seq<Token>, s: State, q: nat)
    requires s.pos <= |ts| && MoreParameters(ts, Compiler, s).Ok?
    requires MoreParameters(ts, Compiler, s).value.pos <= q <= |ts|
    ensures var r := MoreParameters(ts, Compiler, s).value;
      DefineEach(s.scopes, ParameterDecls(ts, s.pos, q), Argument) == DefineEach(r.scopes, ParameterDecls(ts, r.pos, q), Argument)
    decreases |ts| - s.pos
  {
    if At(ts, s, ",") {
      var s1 := JackGrammar.Symbol(ts, s, [","]).value;
      var s2 := Parameter(ts, Compiler, s1).value;
      ParameterDefines(ts, s1);
      MoreParametersDefine(ts, s2, q);
      assert IsComma(ts[s.pos]);
      assert ParameterDecls(ts, s.pos, q) == [(ts[s1.pos].text, ts[s1.pos + 1].text)] + ParameterDecls(ts, s2.pos, q);
    }
  }

  /** The outer loop of `compileParameterList` defines the parameters it
      reads, in order, in the same sense. */
  lemma {:induction false} ParametersDefine(ts: seq<Token>, s: State, q: nat)
    requires s.pos <= |ts| && Parameters(ts, Compiler, s).Ok?
    requires Parameters(ts, Compiler, s).value.pos <= q <= |ts|
    ensures var r := Parameters(ts, Compiler, s).value;
      DefineEach(s.scopes, ParameterDecls(ts, s.pos, q), Argument) == DefineEach(r.scopes, ParameterDecls(ts, r.pos, q), Argument)
    decreases |ts| - s.pos
  {
    if ParameterAhead(ts, s) == Ok(true) {
      var s1 := Parameter(ts, Compiler, s).value;
      var s2 := MoreParameters(ts, Compiler, s1).value;
      ParameterDefines(ts, s);
      MoreParametersDefine(ts, s1, q);
      ParametersDefine(ts, s2, q);
      assert ParameterDecls(ts, s.pos, q) == [(ts[s.pos].text, ts[s.pos + 1].text)] + ParameterDecls(ts, s1.pos, q);
    }
  }

  /** `compileParameterList` of the compiler defines every parameter it
      reads, in the order written, as an `argument` of its own type. */
  lemma ParameterListDefines(ts: seq<Token>, s: State, r: State)
    requires s.pos <= |ts| && ParameterList(ts, Compiler, s) == Ok(r)
    ensures s.pos <= r.pos <= |ts|
    ensures DefineEach(s.scopes, ParameterDecls(ts, s.pos, r.pos), Argument) == Ok(r.scopes)
  {
    var s0 := WriteStart(s, "parameterList");
    ParametersDefine(ts, s0, r.pos);
  }

  /** In the empty argument table of a fresh subroutine, parameters with
      distinct names are the arguments 0, 1, 2, ... in the order written,
      each of its own type, and there are no other arguments. */
  lemma ParameterListIndices(ts: seq<Token>, s: State, r: State)
    requires s.pos <= |ts| && s.scopes.args == map[] && ParameterList(ts, Compiler, s) == Ok(r)
    requires var d := ParameterDecls(ts, s.pos, r.pos); forall i, j :: 0 <= i < j < |d| ==> d[i].1 != d[j].1
    ensures var d := ParameterDecls(ts, s.pos, r.pos);
      && |r.scopes.args| == |d|
      && forall i :: 0 <= i < |d| ==>
           && r.scopes.KindOf(d[i].1) == Argument && r.scopes.TypeOf(d[i].1) == Ok(d[i].0)
           && r.scopes.IndexOf(d[i].1) == Ok(i)
  {
    ParameterListDefines(ts, s, r);
    DefineEachIndices(s.scopes, ParameterDecls(ts, s.pos, r.pos), Argument);
  }

  // ---------------------------------------------------------------------
  // Statements

  /** The loop of `compileStatements` ends at the first token that does not
      start a statement. */
  lemma {:induction false} StatementListEnd(ts: seq<Token>, eng: Engine, s: State)
    requires s.pos <= |ts| && StatementList(ts, eng, s).Ok?
    ensures !AtOneOf(ts, StatementList(ts, eng, s).value, StatementKeywords)
    decreases |ts| - s.pos
  {
    if AtOneOf(ts, s, StatementKeywords) {
      StatementListEnd(ts, eng, Statement(ts, eng, s).value);
    }
  }

  /** `compileLet` of the compiler throws when the target name is in no
      table (`typeOf` throws in `writeIdentifier`). */
  lemma LetUndefinedTarget(ts: seq<Token>, s: State)
    requires s.pos + 1 < |ts| && s.scopes.Lookup(ts[s.pos + 1].text).None?
    ensures Let(ts, Compiler, s).Err?
  {
    var k := JackGrammar.Keyword(ts, WriteStart(s, "letStatement"), ["let"]);
    if k.Ok? {
      assert k.value.pos == s.pos + 1 && k.value.scopes == s.scopes;
      UndefinedVarName(ts, k.value);
    }
  }

  /** A name in no table is refused by the compiler's `compileVarName`
      for a use (`typeOf` throws in `writeIdentifier`). */
  lemma UndefinedVarName(ts: seq<Token>, s: State)
    requires s.pos < |ts| && s.scopes.Lookup(ts[s.pos].text).None?
    ensures VarName(ts, s, None).Err?
  {
    LookupResults(s.scopes, ts[s.pos].text);
  }

  /** In an accepted `let`, the token after the target is `[` or `=`. */
  lemma LetAfterTarget(ts: seq<Token>, eng: Engine, s: State, r: State)
    requires s.pos <= |ts| && Let(ts, eng, s) == Ok(r)
    ensures s.pos + 2 < |ts| && ts[s.pos + 2].text in ["[", "="]
  {
    var s1 := JackGrammar.Keyword(ts, WriteStart(s, "letStatement"), ["let"]).value;
    assert s1.pos == s.pos + 1;
    LetTargetNext(ts, eng, s1, LetTarget(ts, eng, s1).value, s.pos + 2);
  }

  /** The token after the name of a `let` target is `[` or `=`: the
      token at `p`, one past the name. */
  lemma LetTargetNext(ts: seq<Token>, eng: Engine, s: State, r: State, p: nat)
    requires s.pos <= |ts| && LetTarget(ts, eng, s) == Ok(r) && p == s.pos + 1
    ensures p < |ts| && ts[p].text in ["[", "="]
  {
    var s1 := (if eng == Compiler then VarName(ts, s, None) else JackGrammar.Identifier(ts, s)).value;
    assert s1.pos == p;
    IndicesStart(ts, eng, s1, r);
  }

  /** The index loop of `compileLet` starts at `=` or at `[`. */
  lemma IndicesStart(ts: seq<Token>, eng: Engine, s: State, r: State)
    requires s.pos <= |ts| && LetIndices(ts, eng, s) == Ok(r)
    ensures s.pos < |ts| && ts[s.pos].text in ["[", "="]
  {
    if !At(ts, s, "=") {
      assert JackGrammar.Symbol(ts, s, ["["]).Ok?;
    }
  }

  /** The index loop of `compileLet` ends at `=`. */
  lemma {:induction false} LetIndicesEnd(ts: seq<Token>, eng: Engine, s: State)
    requires s.pos <= |ts| && LetIndices(ts, eng, s).Ok?
    ensures At(ts, LetIndices(ts, eng, s).value, "=")
    decreases |ts| - s.pos
  {
    if !At(ts, s, "=") {
      var s1 := JackGrammar.Symbol(ts, s, ["["]).value;
      var s2 := Expression(ts, eng, s1).value;
      LetIndicesEnd(ts, eng, JackGrammar.Symbol(ts, s2, ["]"]).value);
    }
  }

  /** The loop of `compileReturn` ends at `;`. */
  lemma {:induction false} ReturnValuesEnd(ts: seq<Token>, eng: Engine, s: State)
    requires s.pos <= |ts| && ReturnValues(ts, eng, s).Ok?
    ensures At(ts, ReturnValues(ts, eng, s).value, ";")
    decreases |ts| - s.pos
  {
    if !At(ts, s, ";") {
      ReturnValuesEnd(ts, eng, Expression(ts, eng, s).value);
    }
  }

  /** `{ statements }` starts at `{` and ends after `}`. */
  lemma BlockShape(ts: seq<Token>, eng: Engine, s: State, r: State)
    requires s.pos <= |ts| && Block(ts, eng, s) == Ok(r)
    ensures s.pos + 2 <= r.pos && ts[s.pos].text == "{" && ts[r.pos - 1].text == "}"
  {
    var s1 := JackGrammar.Symbol(ts, s, ["{"]).value;
    var s2 := Statements(ts, eng, s1).value;
    assert JackGrammar.Symbol(ts, s2, ["}"]).Ok?;
  }

  /** The `else` part of `compileIf` is empty unless the current token is
      `else`, and is then `else { statements }`. */
  lemma ElseShape(ts: seq<Token>, eng: Engine, s: State, r: State)
    requires s.pos <= |ts| && Else(ts, eng, s) == Ok(r)
    ensures !At(ts, s, "else") ==> r == s
    ensures At(ts, s, "else") ==> s.pos + 3 <= r.pos && ts[s.pos].text == "else" && ts[r.pos - 1].text == "}"
  {
    if At(ts, s, "else") {
      var s1 := JackGrammar.Keyword(ts, s, ["else"]).value;
      BlockShape(ts, eng, s1, r);
    }
  }

  /** `( expression )` starts at `(` and ends after `)`. */
  lemma ParenthesizedShape(ts: seq<Token>, eng: Engine, s: State, r: State)
    requires s.pos <= |ts| && Parenthesized(ts, eng, s) == Ok(r)
    ensures s.pos + 3 <= r.pos && ts[s.pos].text == "(" && ts[r.pos - 1].text == ")"
  {
    var s1 := JackGrammar.Symbol(ts, s, ["("]).value;
    var s2 := Expression(ts, eng, s1).value;
    assert JackGrammar.Symbol(ts, s2, [")"]).Ok?;
  }

  // ---------------------------------------------------------------------
  // Expressions

  /** The operator loop of `compileExpression` ends at a token that is not
      one of the nine operators. */
  lemma {:induction false} OpTermsEnd(ts: seq<Token>, eng: Engine, s: State)
    requires s.pos <= |ts| && OpTerms(ts, eng, s).Ok?
    ensures !AtOneOf(ts, OpTerms(ts, eng, s).value, Ops)
    decreases |ts| - s.pos
  {
    if AtOneOf(ts, s, Ops) {
      var s1 := JackGrammar.Symbol(ts, s, Ops).value;
      OpTermsEnd(ts, eng, Term(ts, eng, s1).value);
    }
  }

  /** The outer loop of `compileExpressionList` ends at `)`. */
  lemma {:induction false} ExpressionLoopEnd(ts: seq<Token>, eng: Engine, s: State)
    requires s.pos <= |ts| && ExpressionLoop(ts, eng, s).Ok?
    ensures At(ts, ExpressionLoop(ts, eng, s).value, ")")
    decreases |ts| - s.pos
  {
    if !At(ts, s, ")") {
      var s1 := Expression(ts, eng, s).value;
      ExpressionLoopEnd(ts, eng, MoreExpressions(ts, eng, s1).value);
    }
  }

  /** `compileExpressionList` stops at `)`, which it leaves to its caller. */
  lemma ExpressionListEnd(ts: seq<Token>, eng: Engine, s: State)
    requires s.pos <= |ts| && ExpressionList(ts, eng, s).Ok?
    ensures At(ts, ExpressionList(ts, eng, s).value, ")")
  {
    ExpressionLoopEnd(ts, eng, WriteStart(s, "expressionList"));
  }

  /** `compileTerm` throws on a token that starts no term: the message is
      the one of `tokenType()` when that throws, `invalid term` otherwise. */
  lemma TermRejects(ts: seq<Token>, eng: Engine, s: State)
    requires s.pos < |ts|
    requires ts[s.pos].kind != Ok(IntConst) && ts[s.pos].kind != Ok(StringConst)
    requires ts[s.pos].kind != Ok(JackLexicon.Identifier)
    requires ts[s.pos].text !in KeywordConstants && ts[s.pos].text != "(" && ts[s.pos].text !in UnaryOps
    ensures Term(ts, eng, s) == Err(if ts[s.pos].kind.Err? then ts[s.pos].kind.msg else "invalid term: " + ts[s.pos].text)
  {
  }
}
