/** The VM line writer of the Jack compiler
    (projects/11/JackCompiler/vmWriter.js): every call appends one command of
    the VM language, ended by a newline, to the output file. The file is
    modelled as the text written so far. */
module JackVmWriter {
  import opened Wrappers
  import opened Text
  import opened VmParser

  /** Text that stays one word of one line: no space, no line break. */
  predicate IsWord(s: string) {
    ' ' !in s && '\n' !in s && '\r' !in s
  }

  /** The decimal text of a number is a word. */
  lemma NumberIsWord(n: nat)
    ensures IsWord(NatToString(n)) && NatToString(n) != ""
  {
    var d := NatToString(n);
    assert forall i :: 0 <= i < |d| ==> IsDigitIn(d[i], 10);
  }

  function PushLine(segment: string, index: nat): string {
    "push " + segment + " " + NatToString(index)
  }

  function PopLine(segment: string, index: nat): string {
    "pop " + segment + " " + NatToString(index)
  }

  function LabelLine(base: string): string {
    "label " + base
  }

  function GotoLine(base: string): string {
    "goto " + base
  }

  function IfLine(base: string): string {
    "if-goto " + base
  }

  function CallLine(name: string, nArgs: nat): string {
    "call " + name + " " + NatToString(nArgs)
  }

  function FunctionLine(name: string, nLocals: nat): string {
    "function " + name + " " + NatToString(nLocals)
  }

  const ReturnLine: string := "return"

  /** The line of `command arg1 arg2`, when it has three words. */
  lemma ThreeWordLine(line: string, w: string, a1: string, n: nat)
    requires line == w + " " + a1 + " " + NatToString(n)
    requires IsWord(w) && IsWord(a1)
    requires HasArg2(TypeOf(line))
    ensures Arg1(line) == Some(a1) && Arg2(line) == Some(NatToString(n))
    ensures JsNumber(Arg2(line)) == Some(n)
    ensures IsWord(w) && '\n' !in line && '\r' !in line && line != ""
  {
    NumberIsWord(n);
    ArgsOfThreeWords(line, w, a1, NatToString(n));
    JsNumberOfDecimal(n);
  }

  /** `push segment index` reads back, through the VM translator's parser,
      as a push of that segment and index. */
  lemma PushLineReadsBack(segment: string, index: nat)
    requires IsWord(segment)
    ensures TypeOf(PushLine(segment, index)) == Push
    ensures Arg1(PushLine(segment, index)) == Some(segment)
    ensures JsNumber(Arg2(PushLine(segment, index))) == Some(index)
    ensures '\n' !in PushLine(segment, index) && '\r' !in PushLine(segment, index)
  {
    var line := PushLine(segment, index);
    assert line[..4] == "push";
    ThreeWordLine(line, "push", segment, index);
  }

  lemma PopLineReadsBack(segment: string, index: nat)
    requires IsWord(segment)
    ensures TypeOf(PopLine(segment, index)) == Pop
    ensures Arg1(PopLine(segment, index)) == Some(segment)
    ensures JsNumber(Arg2(PopLine(segment, index))) == Some(index)
    ensures '\n' !in PopLine(segment, index) && '\r' !in PopLine(segment, index)
  {
    var line := PopLine(segment, index);
    assert line[1] == 'o';
    assert line[..3] == "pop";
    ThreeWordLine(line, "pop", segment, index);
  }

  lemma CallLineReadsBack(name: string, nArgs: nat)
    requires IsWord(name)
    ensures TypeOf(CallLine(name, nArgs)) == Call
    ensures Arg1(CallLine(name, nArgs)) == Some(name)
    ensures JsNumber(Arg2(CallLine(name, nArgs))) == Some(nArgs)
    ensures '\n' !in CallLine(name, nArgs) && '\r' !in CallLine(name, nArgs)
  {
    var line := CallLine(name, nArgs);
    assert line[0] == 'c' && line[..4] == "call";
    ThreeWordLine(line, "call", name, nArgs);
  }

  lemma FunctionLineReadsBack(name: string, nLocals: nat)
    requires IsWord(name)
    ensures TypeOf(FunctionLine(name, nLocals)) == Function
    ensures Arg1(FunctionLine(name, nLocals)) == Some(name)
    ensures JsNumber(Arg2(FunctionLine(name, nLocals))) == Some(nLocals)
    ensures '\n' !in FunctionLine(name, nLocals) && '\r' !in FunctionLine(name, nLocals)
  {
    var line := FunctionLine(name, nLocals);
    assert line[0] == 'f' && line[..8] == "function";
    ThreeWordLine(line, "function", name, nLocals);
  }

  /** The line of `command label`, when it has two words. */
  lemma TwoWordLine(line: string, w: string, a1: string)
    requires line == w + " " + a1
    requires IsWord(w) && IsWord(a1)
    requires TypeOf(line) == Label || TypeOf(line) == Goto || TypeOf(line) == If
    ensures Arg1(line) == Some(a1) && Arg2(line).None?
    ensures '\n' !in line && '\r' !in line
  {
    ArgsOfTwoWords(line, w, a1);
  }

  lemma LabelLineReadsBack(base: string)
    requires IsWord(base)
    ensures TypeOf(LabelLine(base)) == Label
    ensures Arg1(LabelLine(base)) == Some(base) && Arg2(LabelLine(base)).None?
    ensures '\n' !in LabelLine(base) && '\r' !in LabelLine(base)
  {
    var line := LabelLine(base);
    assert line[0] == 'l' && line[..5] == "label";
    TwoWordLine(line, "label", base);
  }

  lemma GotoLineReadsBack(base: string)
    requires IsWord(base)
    ensures TypeOf(GotoLine(base)) == Goto
    ensures Arg1(GotoLine(base)) == Some(base) && Arg2(GotoLine(base)).None?
    ensures '\n' !in GotoLine(base) && '\r' !in GotoLine(base)
  {
    var line := GotoLine(base);
    assert line[0] == 'g' && line[..4] == "goto";
    TwoWordLine(line, "goto", base);
  }

  lemma IfLineReadsBack(base: string)
    requires IsWord(base)
    ensures TypeOf(IfLine(base)) == If
    ensures Arg1(IfLine(base)) == Some(base) && Arg2(IfLine(base)).None?
    ensures '\n' !in IfLine(base) && '\r' !in IfLine(base)
  {
    var line := IfLine(base);
    assert line[0] == 'i' && line[..7] == "if-goto";
    TwoWordLine(line, "if-goto", base);
  }

  /** The nine stack commands of the VM language. */
  predicate IsStackCommand(command: string) {
    command == "add" || command == "sub" || command == "neg" ||
    command == "eq" || command == "gt" || command == "lt" ||
    command == "and" || command == "or" || command == "not"
  }

  /** A text that is shorter than `p`, or differs from it in the first
      character, does not start with `p`. */
  lemma NotPrefix(s: string, p: string)
    requires |s| < |p| || (s != "" && p != "" && s[0] != p[0])
    ensures !StartsWith(s, p)
  {
    if |p| <= |s| && s != "" && p != "" {
      assert s[..|p|][0] == s[0];
    }
  }

  /** A command that starts with none of the prefixes `commandType` tests
      is arithmetic. */
  lemma NoPrefixIsArithmetic(c: string)
    requires c != "" && c != "return"
    requires c[0] != 'p' && c[0] != 'f' && c[0] != 'i' && c[0] != 'c'
    requires |c| < 4 || (c[0] != 'l' && c[0] != 'g')
    ensures TypeOf(c) == Arithmetic
  {
    NotPrefix(c, "push");
    NotPrefix(c, "pop");
    NotPrefix(c, "label");
    NotPrefix(c, "goto");
    NotPrefix(c, "if-goto");
    NotPrefix(c, "function");
    NotPrefix(c, "call");
  }

  /** A stack command written verbatim reads back as an arithmetic command
      whose first argument is the command itself. */
  lemma ArithmeticLineReadsBack(command: string)
    requires IsStackCommand(command)
    ensures TypeOf(command) == Arithmetic && Arg1(command) == Some(command) && Arg2(command).None?
  {
    NoPrefixIsArithmetic(command);
  }

  lemma ReturnLineReadsBack()
    ensures TypeOf(ReturnLine) == Return && Arg1(ReturnLine).None? && Arg2(ReturnLine).None?
  {
    NotPrefix(ReturnLine, "push");
    NotPrefix(ReturnLine, "pop");
    NotPrefix(ReturnLine, "label");
    NotPrefix(ReturnLine, "goto");
    NotPrefix(ReturnLine, "if-goto");
    NotPrefix(ReturnLine, "function");
  }

  /** A file whose lines are joined with CRLF and hold no CR reads back, line
      for line, as the VM translator's instruction list (none of the lines
      above is blank or a comment). */
  lemma WrittenLinesReadBack(lines: seq<string>)
    requires |lines| > 0
    requires forall i :: 0 <= i < |lines| ==> '\r' !in lines[i] && lines[i] != "" && lines[i][0] != '/'
    ensures Instructions(Join(lines, "\r\n")) == lines
  {
    InstructionsOfLines(lines);
    CommandLinesOfLines(lines);
  }

  lemma {:induction false} CommandLinesOfLines(lines: seq<string>)
    requires forall i :: 0 <= i < |lines| ==> lines[i] != "" && lines[i][0] != '/'
    ensures CommandLines(lines) == lines
  {
    if |lines| > 0 {
      assert IsCommandLine(lines[0]);
      CommandLinesOfConcat([lines[0]], lines[1..]);
      CommandLinesOfLines(lines[1..]);
      assert [lines[0]] + lines[1..] == lines;
    }
  }

  /** The writer ends every line with LF alone, while the VM translator's
      parser splits its input at CRLF: text without CR is one instruction
      with all its line breaks inside it. */
  lemma LfTextIsOneInstruction(content: string)
    requires '\r' !in content && content != "" && content[0] != '/'
    ensures Instructions(content) == [content]
  {
    NoSeparatorWithoutItsHead(content, "\r\n");
    CommandLinesOfLines([content]);
  }

  /** `VMWriter`: the text of the output file. */
  class VmWriter {
    var output: string

    /** The constructor empties the file. */
    constructor ()
      ensures output == ""
    {
      output := "";
    }

    method WritePush(segment: string, index: nat)
      modifies this
      ensures output == old(output) + PushLine(segment, index) + "\n"
    {
      output := output + PushLine(segment, index) + "\n";
    }

    method WritePop(segment: string, index: nat)
      modifies this
      ensures output == old(output) + PopLine(segment, index) + "\n"
    {
      output := output + PopLine(segment, index) + "\n";
    }

    method WriteArithmetic(command: string)
      modifies this
      ensures output == old(output) + command + "\n"
    {
      output := output + command + "\n";
    }

    method WriteLabel(base: string)
      modifies this
      ensures output == old(output) + LabelLine(base) + "\n"
    {
      output := output + LabelLine(base) + "\n";
    }

    method WriteGoto(base: string)
      modifies this
      ensures output == old(output) + GotoLine(base) + "\n"
    {
      output := output + GotoLine(base) + "\n";
    }

    method WriteIf(base: string)
      modifies this
      ensures output == old(output) + IfLine(base) + "\n"
    {
      output := output + IfLine(base) + "\n";
    }

    method WriteCall(name: string, nArgs: nat)
      modifies this
      ensures output == old(output) + CallLine(name, nArgs) + "\n"
    {
      output := output + CallLine(name, nArgs) + "\n";
    }

    method WriteFunction(name: string, nLocals: nat)
      modifies this
      ensures output == old(output) + FunctionLine(name, nLocals) + "\n"
    {
      output := output + FunctionLine(name, nLocals) + "\n";
    }

    method WriteReturn()
      modifies this
      ensures output == old(output) + ReturnLine + "\n"
    {
      output := output + ReturnLine + "\n";
    }
  }
}
