/** The line parser of the VM translator (projects/07/VMTranslater/parser.js,
    which the projects/08 translator uses too): it reads the VM program line
    by line and tells each command's type and arguments. */
module VmParser {
  import opened Wrappers
  import opened Text

  /** `C_ARITHMETIC`, `C_PUSH`, `C_POP`, `C_LABEL`, `C_GOTO`, `C_IF`,
      `C_FUNCTION`, `C_RETURN` and `C_CALL`. */
  datatype CommandType = Arithmetic | Push | Pop | Label | Goto | If | Function | Return | Call

  /** The instruction list the constructor builds: the text split at CRLF,
      spaces kept, blank lines and `//` comment lines dropped. */
  function Instructions(content: string): (r: seq<string>)
    ensures forall i :: 0 <= i < |r| ==> r[i] != "" && !StartsWith(r[i], "//")
    ensures forall x :: x in r <==> x in Split(content, "\r\n") && IsCommandLine(x)
  {
    CommandLines(Split(content, "\r\n"))
  }

  /** A file of CRLF-separated lines reads back as those lines, minus the
      blank and comment lines, in their order. */
  lemma InstructionsOfLines(lines: seq<string>)
    requires |lines| > 0
    requires forall i :: 0 <= i < |lines| ==> '\r' !in lines[i]
    ensures Instructions(Join(lines, "\r\n")) == CommandLines(lines)
  {
    SplitOfJoin(lines, "\r\n");
  }

  /** `commandType`: the first of the prefixes `push`, `pop`, `label`,
      `goto`, `if-goto`, `function` the command starts with, then the exact
      command `return`, then the prefix `call`; anything else is arithmetic. */
  function TypeOf(c: string): (t: CommandType)
    ensures t == Push <==> StartsWith(c, "push")
    ensures t == Pop <==> StartsWith(c, "pop")
    ensures t == Label <==> StartsWith(c, "label")
    ensures t == Goto <==> StartsWith(c, "goto")
    ensures t == If <==> StartsWith(c, "if-goto")
    ensures t == Function <==> StartsWith(c, "function")
    ensures t == Return <==> c == "return"
    ensures t == Call <==> StartsWith(c, "call")
  {
    CommandWordHeads(c);
    if StartsWith(c, "push") then Push
    else if StartsWith(c, "pop") then Pop
    else if StartsWith(c, "label") then Label
    else if StartsWith(c, "goto") then Goto
    else if StartsWith(c, "if-goto") then If
    else if StartsWith(c, "function") then Function
    else if c == "return" then Return
    else if StartsWith(c, "call") then Call
    else Arithmetic
  }

  /** The command words differ in their first two letters, so a command
      starts with at most one of them. */
  lemma CommandWordHeads(c: string)
    ensures StartsWith(c, "push") ==> c[0] == 'p' && c[1] == 'u'
    ensures StartsWith(c, "pop") ==> c[0] == 'p' && c[1] == 'o'
    ensures StartsWith(c, "label") ==> c[0] == 'l'
    ensures StartsWith(c, "goto") ==> c[0] == 'g'
    ensures StartsWith(c, "if-goto") ==> c[0] == 'i'
    ensures StartsWith(c, "function") ==> c[0] == 'f'
    ensures StartsWith(c, "call") ==> c[0] == 'c'
    ensures c == "return" ==> c[0] == 'r'
  {
    HeadOfPrefix(c, "push");
    HeadOfPrefix(c, "pop");
    HeadOfPrefix(c, "label");
    HeadOfPrefix(c, "goto");
    HeadOfPrefix(c, "if-goto");
    HeadOfPrefix(c, "function");
    HeadOfPrefix(c, "call");
  }

  /** A text starting with a word of two or more letters has its first two. */
  lemma HeadOfPrefix(c: string, p: string)
    requires |p| >= 2
    ensures StartsWith(c, p) ==> c[0] == p[0] && c[1] == p[1]
  {
    if StartsWith(c, p) {
      assert c[..|p|][0] == c[0] && c[..|p|][1] == c[1];
    }
  }

  /** Each command word, followed by a space, gives its type; only the exact
      command `return` is a return, so `return` with anything after it
      (even a space left before a comment) falls back to arithmetic. */
  lemma TypeOfCommandWord(w: string, rest: string)
    requires w in ["push", "pop", "label", "goto", "if-goto", "function", "call", "return"]
    ensures TypeOf(w + " " + rest) ==
      if w == "push" then Push else if w == "pop" then Pop else if w == "label" then Label
      else if w == "goto" then Goto else if w == "if-goto" then If
      else if w == "function" then Function else if w == "call" then Call else Arithmetic
    ensures TypeOf("return") == Return
  {
    var c := w + " " + rest;
    assert c[..|w|] == w;
    assert c[0] == w[0] && c[1] == w[1] && c[|w|] == ' ';
    assert c != "return" by {
      assert |c| > |w|;
      if w == "return" {
        assert |c| > 6;
      } else {
        assert c[0] != 'r';
      }
    }
  }

  /** The types whose command has a second argument. */
  predicate HasArg2(t: CommandType) {
    t == Push || t == Pop || t == Function || t == Call
  }

  /** `arg1`: `undefined` for `return`, the whole command for arithmetic, the
      second space-separated word otherwise. */
  function Arg1(c: string): (r: Option<string>)
    ensures TypeOf(c) == Return ==> r.None?
    ensures TypeOf(c) == Arithmetic ==> r == Some(c)
    ensures TypeOf(c) != Return && TypeOf(c) != Arithmetic ==> r == Piece(c, " ", 1)
  {
    match TypeOf(c)
    case Return => None
    case Arithmetic => Some(c)
    case _ => Piece(c, " ", 1)
  }

  /** `arg2`: the third space-separated word of push, pop, function and call,
      `undefined` for every other command. */
  function Arg2(c: string): (r: Option<string>)
    ensures !HasArg2(TypeOf(c)) ==> r.None?
    ensures HasArg2(TypeOf(c)) ==> r == Piece(c, " ", 2)
  {
    if HasArg2(TypeOf(c)) then Piece(c, " ", 2) else None
  }

  /** A command of the form `word arg1 arg2` reads back as its two arguments. */
  lemma ArgsOfThreeWords(c: string, w: string, a1: string, a2: string)
    requires c == w + " " + a1 + " " + a2
    requires ' ' !in w && ' ' !in a1 && ' ' !in a2
    requires HasArg2(TypeOf(c))
    ensures Arg1(c) == Some(a1) && Arg2(c) == Some(a2)
  {
    SplitThree(w, ' ', a1, a2);
  }

  /** A command of the form `word arg1` reads back as its one argument and no
      second one. */
  lemma ArgsOfTwoWords(c: string, w: string, a1: string)
    requires c == w + " " + a1
    requires ' ' !in w && ' ' !in a1
    requires TypeOf(c) == Label || TypeOf(c) == Goto || TypeOf(c) == If
    ensures Arg1(c) == Some(a1) && Arg2(c).None?
  {
    SplitAround(w, ' ', a1);
  }

  /** The VM translator's `Parser`: the instruction list and a cursor over it. */
  class Parser {
    const instructions: seq<string>
    var lineCounter: nat
    var currentCommand: Option<string>

    /** No instruction is empty, the cursor stays within the list, and while
        it is on a line it shows that line's command. */
    ghost predicate Valid()
      reads this
    {
      && (forall i :: 0 <= i < |instructions| ==> instructions[i] != "")
      && lineCounter <= |instructions|
      && (lineCounter < |instructions| ==> currentCommand == Some(CommandAt(instructions, lineCounter)))
    }

    constructor (content: string)
      ensures instructions == Instructions(content)
      ensures lineCounter == 0
      ensures currentCommand == (if instructions == [] then None else Some(instructions[0]))
      ensures Valid()
    {
      instructions := Instructions(content);
      lineCounter := 0;
      currentCommand := if |Instructions(content)| > 0 then Some(Instructions(content)[0]) else None;
    }

    /** `hasMoreCommands`: while it holds, the cursor is on a line and
        `currentCommand` shows it; once it fails, the cursor is at the end. */
    predicate HasMoreCommands()
      reads this
      ensures Valid() && HasMoreCommands() ==> lineCounter < |instructions| && currentCommand == Some(CommandAt(instructions, lineCounter))
      ensures Valid() && !HasMoreCommands() ==> lineCounter == |instructions|
    {
      |instructions| > lineCounter
    }

    /** `advance`: one line on, showing the new line without its comment;
        past the last line `currentCommand` keeps its old value. */
    method Advance()
      modifies this
      ensures old(HasMoreCommands()) ==> lineCounter == old(lineCounter) + 1
      ensures !old(HasMoreCommands()) ==> lineCounter == old(lineCounter)
      ensures currentCommand ==
        if old(HasMoreCommands()) && lineCounter < |instructions| && instructions[lineCounter] != ""
        then Some(StripComment(instructions[lineCounter]))
        else old(currentCommand)
      ensures old(Valid()) ==> Valid()
    {
      if !HasMoreCommands() {
        return;
      }
      lineCounter := lineCounter + 1;
      if lineCounter >= |instructions| || instructions[lineCounter] == "" {
        return;
      }
      currentCommand := Some(StripComment(instructions[lineCounter]));
    }
  }
}
