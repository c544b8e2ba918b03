/** The line parser of the Hack assembler (projects/06/assembler/parser.js):
    it cleans up the assembly text and splits each command into its fields. */
module HackParser {
  import opened Wrappers
  import opened Text

  /** `A_COMMAND`, `C_COMMAND` and `L_COMMAND`. */
  datatype CommandType = ACommand | CCommand | LCommand

  /** The instruction list the constructor builds: every space removed, the
      text split at CRLF, blank lines and `//` comment lines dropped. */
  function Instructions(content: string): (r: seq<string>)
    ensures forall i :: 0 <= i < |r| ==> r[i] != "" && ' ' !in r[i] && !StartsWith(r[i], "//")
  {
    var lines := Split(RemoveChar(content, ' '), "\r\n");
    var r := CommandLines(lines);
    assert forall x :: x in lines ==> ' ' !in x by {
      forall x | x in lines ensures ' ' !in x {
        SplitPiecesOf(RemoveChar(content, ' '), "\r\n", ' ');
      }
    }
    r
  }

  /** A text of CRLF-separated lines reads back as those lines, each without
      its spaces, minus the blank and `//` ones, in order. */
  lemma InstructionsOfLines(lines: seq<string>)
    requires |lines| > 0
    requires forall i :: 0 <= i < |lines| ==> '\r' !in lines[i]
    ensures Instructions(Join(lines, "\r\n")) == CommandLines(RemoveCharAll(lines, ' '))
  {
    var clean := RemoveCharAll(lines, ' ');
    RemoveCharOfJoin(lines, "\r\n", ' ');
    forall i | 0 <= i < |clean| ensures '\r' !in clean[i] {
      RemoveCharAvoids(lines[i], ' ', '\r');
    }
    SplitOfJoin(clean, "\r\n");
  }

  /** `commandType`: a leading `@` makes an A-command, a leading `(` a label,
      anything else a C-command. */
  function TypeOf(c: string): (t: CommandType)
    ensures t == ACommand <==> StartsWith(c, "@")
    ensures t == LCommand <==> !StartsWith(c, "@") && StartsWith(c, "(")
  {
    if StartsWith(c, "@") then ACommand
    else if StartsWith(c, "(") then LCommand
    else CCommand
  }

  /** `symbol`: the text after `@`, or the text inside `(` and `)`; it throws
      for a C-command. */
  function Symbol(c: string): (r: Result<string>)
    ensures r.Ok? <==> TypeOf(c) != CCommand
    ensures r.Ok? ==> |r.value| < |c|
  {
    match TypeOf(c)
    case ACommand => Ok(c[1..])
    case LCommand => Ok(if |c| >= 2 then c[1..|c| - 1] else "")
    case CCommand => Err("commandType should be A_COMMAND or L_COMMAND")
  }

  /** `dest`: `null` when the command has a `;`, else the text before the first `=`. */
  function DestField(c: string): (r: Result<Option<string>>)
    ensures r.Ok? <==> TypeOf(c) == CCommand
    ensures r.Ok? ==> (r.value.None? <==> ';' in c)
  {
    IndexOfChar(c, ';');
    if TypeOf(c) != CCommand then Err("commandType should be C_COMMAND when call dest")
    else if Contains(c, ";") then Ok(None)
    else Ok(Some(BeforeFirst(c, "=")))
  }

  /** `comp`: the text before `;` when there is one, else the text after the
      first `=` (`undefined` when there is none). */
  function CompField(c: string): (r: Result<Option<string>>)
    ensures r.Ok? <==> TypeOf(c) == CCommand
  {
    if TypeOf(c) != CCommand then Err("commandType should be C_COMMAND when call comp")
    else if Contains(c, ";") then Ok(Some(BeforeFirst(c, ";")))
    else Ok(Piece(c, "=", 1))
  }

  /** `jump`: the text after the first `;`, `undefined` when there is none. */
  function JumpField(c: string): (r: Result<Option<string>>)
    ensures r.Ok? <==> TypeOf(c) == CCommand
  {
    if TypeOf(c) != CCommand then Err("commandType should be C_COMMAND when call jump")
    else Ok(Piece(c, ";", 1))
  }

  /** `@value` is an A-command whose symbol is `value`. */
  lemma SymbolOfAddress(value: string)
    ensures TypeOf("@" + value) == ACommand && Symbol("@" + value) == Ok(value)
  {
    assert ("@" + value)[..1] == "@";
    assert ("@" + value)[1..] == value;
  }

  /** `(name)` is a label whose symbol is `name`. */
  lemma SymbolOfLabel(name: string)
    ensures TypeOf("(" + name + ")") == LCommand && Symbol("(" + name + ")") == Ok(name)
  {
    var c := "(" + name + ")";
    assert c[..1] == "(";
    assert c[1..|c| - 1] == name;
  }

  /** A command `dest=comp` reads back as its two fields and no jump. */
  lemma FieldsOfAssignment(d: string, cm: string)
    requires '=' !in d && ';' !in d && '=' !in cm && ';' !in cm
    requires !StartsWith(d + "=" + cm, "@") && !StartsWith(d + "=" + cm, "(")
    ensures DestField(d + "=" + cm) == Ok(Some(d))
    ensures CompField(d + "=" + cm) == Ok(Some(cm))
    ensures JumpField(d + "=" + cm) == Ok(None)
  {
    var c := d + "=" + cm;
    assert ';' !in c by {
      assert forall i :: 0 <= i < |c| ==> c[i] == (if i < |d| then d[i] else if i == |d| then '=' else cm[i - |d| - 1]);
    }
    IndexOfChar(c, ';');
    SplitAround(d, '=', cm);
    SplitNoSeparator(c, ';');
    FirstPieceIsBeforeFirst(c, "=");
  }

  /** A command `comp;jump` reads back as no dest, its comp and its jump. */
  lemma FieldsOfJump(cm: string, j: string)
    requires ';' !in cm && ';' !in j
    requires !StartsWith(cm + ";" + j, "@") && !StartsWith(cm + ";" + j, "(")
    ensures DestField(cm + ";" + j) == Ok(None)
    ensures CompField(cm + ";" + j) == Ok(Some(cm))
    ensures JumpField(cm + ";" + j) == Ok(Some(j))
  {
    var c := cm + ";" + j;
    assert c[|cm|] == ';';
    IndexOfChar(c, ';');
    SplitAround(cm, ';', j);
    FirstPieceIsBeforeFirst(c, ";");
  }

  /** The assembler's `Parser`: the cleaned instruction list and a cursor over it. */
  class Parser {
    const instructions: seq<string>
    var lineCounter: nat
    var currentCommand: Option<string>

    /** No instruction is empty, the cursor stays within the list, and while
        it is on a line it shows that line's command. */
    ghost predicate Valid()
      reads this
    {
      && (forall i :: 0 <= i < |instructions| ==> instructions[i] != "")
      && lineCounter <= |instructions|
      && (lineCounter < |instructions| ==> currentCommand == Some(CommandAt(instructions, lineCounter)))
    }

    constructor (content: string)
      ensures instructions == Instructions(content)
      ensures lineCounter == 0
      ensures currentCommand == (if instructions == [] then None else Some(instructions[0]))
      ensures Valid()
    {
      instructions := Instructions(content);
      lineCounter := 0;
      currentCommand := if |Instructions(content)| > 0 then Some(Instructions(content)[0]) else None;
    }

    /** `hasMoreCommands`: while it holds, the cursor is on a line and
        `currentCommand` shows it; once it fails, the cursor is at the end. */
    predicate HasMoreCommands()
      reads this
      ensures Valid() && HasMoreCommands() ==> lineCounter < |instructions| && currentCommand == Some(CommandAt(instructions, lineCounter))
      ensures Valid() && !HasMoreCommands() ==> lineCounter == |instructions|
    {
      |instructions| > lineCounter
    }

    /** `advance`: one line on, showing the new line without its comment;
        past the last line `currentCommand` keeps its old value. */
    method Advance()
      modifies this
      ensures old(HasMoreCommands()) ==> lineCounter == old(lineCounter) + 1
      ensures !old(HasMoreCommands()) ==> lineCounter == old(lineCounter)
      ensures currentCommand ==
        if old(HasMoreCommands()) && lineCounter < |instructions| && instructions[lineCounter] != ""
        then Some(StripComment(instructions[lineCounter]))
        else old(currentCommand)
      ensures old(Valid()) ==> Valid()
    {
      if !HasMoreCommands() {
        return;
      }
      lineCounter := lineCounter + 1;
      if lineCounter >= |instructions| || instructions[lineCounter] == "" {
        return;
      }
      currentCommand := Some(StripComment(instructions[lineCounter]));
    }
  }
}
