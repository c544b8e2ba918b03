/** The lexical classes of the Jack language, as the tokenizers of
    projects/10 and projects/11 define them (their constants.js files list
    the same 21 keywords and 19 symbols): the classification `tokenType`
    performs with its fixed precedence, the accessors that depend on it,
    the XML escaping of symbols, and the symbol-splitting of a space-free
    unit that both tokenizers perform. */
module JackLexicon {
  import opened Wrappers
  import opened Text

  /** `KEYWORDS`: the 21 reserved words. */
  predicate IsKeyword(s: string) {
    s == "class" || s == "constructor" || s == "function" || s == "method" ||
    s == "field" || s == "static" || s == "var" || s == "int" || s == "char" ||
    s == "boolean" || s == "void" || s == "true" || s == "false" || s == "null" ||
    s == "this" || s == "let" || s == "do" || s == "if" || s == "else" ||
    s == "while" || s == "return"
  }

  /** One of the 19 characters of `SYMBOLS`, which are also the characters
      of the splitting pattern `/[\{\}\(\)\[\]\.,;\+\-\*\/&\|<>=~]/`. */
  predicate IsSymbolChar(c: char) {
    c == '{' || c == '}' || c == '(' || c == ')' || c == '[' || c == ']' ||
    c == '.' || c == ',' || c == ';' || c == '+' || c == '-' || c == '*' ||
    c == '/' || c == '&' || c == '|' || c == '<' || c == '>' || c == '=' || c == '~'
  }

  /** A token listed in `SYMBOLS`: one symbol character. */
  predicate IsSymbol(s: string) {
    |s| == 1 && IsSymbolChar(s[0])
  }

  /** `/^[0-9]+$/` and `Number(token) <= 32767`. */
  predicate IsIntegerConstant(s: string) {
    IsDecimal(s) && ValueIn(s, 10) <= 32767
  }

  predicate IsIdentifierStart(c: char) {
    ('a' <= c <= 'z') || ('A' <= c <= 'Z') || c == '_'
  }

  predicate IsIdentifierPart(c: char) {
    IsIdentifierStart(c) || ('0' <= c <= '9')
  }

  /** `/^[a-zA-Z_][a-zA-Z0-9_]*$/`. */
  predicate IsIdentifierText(s: string) {
    |s| > 0 && IsIdentifierStart(s[0]) && forall i :: 1 <= i < |s| ==> IsIdentifierPart(s[i])
  }

  /** `/^"[^"\n]*"$/`. */
  predicate IsStringConstant(s: string) {
    |s| >= 2 && s[0] == '"' && s[|s| - 1] == '"' &&
    forall i :: 1 <= i < |s| - 1 ==> s[i] != '"' && s[i] != '\n'
  }

  /** Text between two quotes, with neither a quote nor a line break inside,
      is a string constant. */
  lemma StringConstantOf(t: string)
    requires |t| >= 2 && t[0] == '"' && t[|t| - 1] == '"'
    requires '"' !in t[1..|t| - 1] && '\n' !in t
    ensures IsStringConstant(t)
  {
    forall i | 1 <= i < |t| - 1
      ensures t[i] != '"' && t[i] != '\n'
    {
      assert t[i] == t[1..|t| - 1][i - 1];
    }
  }

  /** `tokens[i]`: the token at `i`, `undefined` past the end. */
  function TokenAt(tokens: seq<string>, i: nat): Option<string> {
    if i < |tokens| then Some(tokens[i]) else None
  }

  /** A text of one of the five classes. */
  predicate IsToken(s: string) {
    IsKeyword(s) || IsSymbol(s) || IsIntegerConstant(s) || IsIdentifierText(s) || IsStringConstant(s)
  }

  /** `TOKEN_TYPE`. */
  datatype TokenType = Keyword | Symbol | IntConst | StringConst | Identifier

  /** The text of each `TOKEN_TYPE` value. */
  function TypeName(t: TokenType): string {
    match t
    case Keyword => "KEYWORD"
    case Symbol => "SYMBOL"
    case IntConst => "INT_CONST"
    case StringConst => "STRING_CONST"
    case Identifier => "IDENTIFIER"
  }

  /** What Node.js throws when `tokenType` calls `match` on the `undefined`
      token past the end of the list. */
  const UndefinedTokenMessage: string := "Cannot read properties of undefined (reading 'match')"

  /** `tokenType`: keyword, then symbol, then integer, then identifier, then
      string; anything else throws. */
  function TokenTypeOf(token: Option<string>): Result<TokenType> {
    if token.None? then Err(UndefinedTokenMessage)
    else if IsKeyword(token.value) then Ok(Keyword)
    else if IsSymbol(token.value) then Ok(Symbol)
    else if IsIntegerConstant(token.value) then Ok(IntConst)
    else if IsIdentifierText(token.value) then Ok(Identifier)
    else if IsStringConstant(token.value) then Ok(StringConst)
    else Err("invalid tokenType. currentToken: " + token.value)
  }

  /** Every keyword has the form of an identifier; this overlap is the only
      one among the five classes, so the precedence matters only there. */
  lemma ClassesOverlapOnlyOnKeywords(s: string)
    ensures IsKeyword(s) ==> IsIdentifierText(s) && !IsSymbol(s) && !IsIntegerConstant(s) && !IsStringConstant(s)
    ensures IsSymbol(s) ==> !IsIntegerConstant(s) && !IsIdentifierText(s) && !IsStringConstant(s)
    ensures IsIntegerConstant(s) ==> !IsIdentifierText(s) && !IsStringConstant(s)
    ensures IsIdentifierText(s) ==> !IsStringConstant(s)
  {
    if IsIntegerConstant(s) {
      assert IsDigitIn(s[0], 10);
    }
  }

  /** The token type of every class, and the condition under which
      `tokenType` throws. */
  lemma TokenTypeSpec(token: Option<string>)
    ensures TokenTypeOf(token) == Ok(Keyword) <==> token.Some? && IsKeyword(token.value)
    ensures TokenTypeOf(token) == Ok(Symbol) <==> token.Some? && IsSymbol(token.value)
    ensures TokenTypeOf(token) == Ok(IntConst) <==> token.Some? && IsIntegerConstant(token.value)
    ensures TokenTypeOf(token) == Ok(Identifier) <==>
      token.Some? && IsIdentifierText(token.value) && !IsKeyword(token.value)
    ensures TokenTypeOf(token) == Ok(StringConst) <==> token.Some? && IsStringConstant(token.value)
    ensures TokenTypeOf(token).Err? <==> token.None? || !IsToken(token.value)
  {
    if token.Some? {
      ClassesOverlapOnlyOnKeywords(token.value);
    }
  }

  /** `keyWord`, `symbol`, `identifier` and `intVal` of the projects/11
      tokenizer: the token when `tokenType` gives `t`, `undefined` for any
      other type, and the exception of `tokenType` when it throws. */
  function TokenIf(token: Option<string>, t: TokenType): Result<Option<string>> {
    var found :- TokenTypeOf(token);
    Ok(if found == t then token else None)
  }

  lemma TokenIfSpec(token: Option<string>, t: TokenType)
    ensures TokenIf(token, t).Err? <==> TokenTypeOf(token).Err?
    ensures TokenIf(token, t).Err? ==> TokenIf(token, t).msg == TokenTypeOf(token).msg
    ensures TokenIf(token, t) == Ok(token) <==> TokenTypeOf(token) == Ok(t)
    ensures TokenIf(token, t) == Ok(None) <==> TokenTypeOf(token).Ok? && TokenTypeOf(token) != Ok(t)
  {
  }

  /** `stringVal`: a string constant without its two quotes. */
  function StringValOf(token: Option<string>): (r: Result<Option<string>>)
    ensures r.Err? <==> TokenTypeOf(token).Err?
    ensures r.Ok? && r.value.Some? <==> TokenTypeOf(token) == Ok(StringConst)
    ensures r.Ok? && r.value.Some? ==>
      token.value == "\"" + r.value.value + "\"" && '"' !in r.value.value && '\n' !in r.value.value
  {
    var found :- TokenTypeOf(token);
    if found == StringConst then
      var s := token.value;
      assert s == [s[0]] + s[1..|s| - 1] + [s[|s| - 1]];
      Ok(Some(s[1..|s| - 1]))
    else Ok(None)
  }

  /** The XML spelling of a symbol: `&lt;`, `&gt;` and `&amp;` for the three
      characters XML reserves, the symbol itself otherwise. */
  function Escape(symbol: string): string {
    if symbol == "<" then "&lt;"
    else if symbol == ">" then "&gt;"
    else if symbol == "&" then "&amp;"
    else symbol
  }

  function Unescape(text: string): string {
    if text == "&lt;" then "<"
    else if text == "&gt;" then ">"
    else if text == "&amp;" then "&"
    else text
  }

  /** Escaping a symbol leaves no `<` or `>` in the text, and the symbol can
      be read back from it. */
  lemma EscapeReadsBack(symbol: string)
    requires IsSymbol(symbol)
    ensures Unescape(Escape(symbol)) == symbol
    ensures '<' !in Escape(symbol) && '>' !in Escape(symbol)
    ensures Escape(symbol) != symbol <==> symbol == "<" || symbol == ">" || symbol == "&"
  {
  }

  // ---------------------------------------------------------------------
  // Cutting a space-free unit at its symbols

  predicate HasNoSymbol(s: string) {
    forall k :: 0 <= k < |s| ==> !IsSymbolChar(s[k])
  }

  /** `unit.match(reg).index`: the position of the first symbol character,
      or -1 when the pattern does not match. */
  function SymbolIndex(s: string): (r: int)
    ensures -1 <= r < |s|
    ensures r >= 0 ==> IsSymbolChar(s[r]) && HasNoSymbol(s[..r])
    ensures r == -1 ==> HasNoSymbol(s)
    decreases |s|
  {
    if s == "" then -1
    else if IsSymbolChar(s[0]) then 0
    else
      var k := SymbolIndex(s[1..]);
      assert forall j :: 0 < j < |s| ==> s[j] == s[1..][j - 1];
      if k == -1 then -1 else k + 1
  }

  /** The tokens the symbol-splitting loop pushes for `unit`: the text before
      the first symbol (when there is some), the symbol, then the tokens of
      the rest. */
  function UnitTokens(unit: string): seq<string>
    decreases |unit|
  {
    if unit == "" then []
    else
      var k := SymbolIndex(unit);
      if k == -1 then [unit]
      else (if k != 0 then [unit[..k]] else []) + [unit[k..k + 1]] + UnitTokens(unit[k + 1..])
  }

  /** The tokens laid end to end. */
  function Concat(ws: seq<string>): string
    decreases |ws|
  {
    if ws == [] then "" else ws[0] + Concat(ws[1..])
  }

  lemma {:induction false} ConcatOfAppend(a: seq<string>, b: seq<string>)
    ensures Concat(a + b) == Concat(a) + Concat(b)
    decreases |a|
  {
    if a == [] {
      assert a + b == b;
    } else {
      assert (a + b)[1..] == a[1..] + b;
      ConcatOfAppend(a[1..], b);
    }
  }

  /** A unit token is a single symbol, or a non-empty run without symbols. */
  predicate IsUnitToken(s: string) {
    IsSymbol(s) || (s != "" && HasNoSymbol(s))
  }

  /** The tokens pushed before the loop moves past the first symbol. */
  function HeadTokens(unit: string, k: nat): seq<string>
    requires k < |unit|
  {
    (if k != 0 then [unit[..k]] else []) + [unit[k..k + 1]]
  }

  lemma HeadTokensSpec(unit: string)
    requires SymbolIndex(unit) >= 0
    ensures var k := SymbolIndex(unit);
      && UnitTokens(unit) == HeadTokens(unit, k) + UnitTokens(unit[k + 1..])
      && Concat(HeadTokens(unit, k)) == unit[..k + 1]
      && forall i :: 0 <= i < |HeadTokens(unit, k)| ==> IsUnitToken(HeadTokens(unit, k)[i])
  {
    var k := SymbolIndex(unit);
    var sym := unit[k..k + 1];
    assert IsUnitToken(sym) by {
      assert sym[0] == unit[k];
    }
    assert Concat([sym]) == sym + Concat([]);
    if k != 0 {
      var pre := unit[..k];
      assert IsUnitToken(pre);
      ConcatOfAppend([pre], [sym]);
      assert Concat([pre]) == pre + Concat([]);
      assert unit[..k + 1] == pre + sym;
      assert HeadTokens(unit, k) == [pre, sym];
    } else {
      assert HeadTokens(unit, k) == [sym];
    }
  }

  /** The tokens of a unit lay end to end to the unit, and each is one symbol
      or a symbol-free run. */
  lemma {:induction false} UnitTokensSpec(unit: string)
    ensures Concat(UnitTokens(unit)) == unit
    ensures forall i :: 0 <= i < |UnitTokens(unit)| ==> IsUnitToken(UnitTokens(unit)[i])
    decreases |unit|
  {
    if unit != "" {
      var k := SymbolIndex(unit);
      if k == -1 {
        assert Concat([unit]) == unit + Concat([]);
      } else {
        var head, rest := HeadTokens(unit, k), UnitTokens(unit[k + 1..]);
        HeadTokensSpec(unit);
        UnitTokensSpec(unit[k + 1..]);
        ConcatOfAppend(head, rest);
        assert unit == unit[..k + 1] + unit[k + 1..];
        forall i | 0 <= i < |head| + |rest|
          ensures IsUnitToken((head + rest)[i])
        {
          if i >= |head| {
            assert (head + rest)[i] == rest[i - |head|];
          }
        }
      }
    }
  }
}
