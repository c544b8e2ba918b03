/** The code writer of the project 07 VM translator
    (projects/07/VMTranslater/codeWriter.js): it lowers the stack arithmetic
    of the VM to Hack assembly, one list of lines per command, and keeps a
    counter that makes the labels of comparisons unique. The functions on
    lines here are the code both translators emit; the project 08 writer
    reuses them. */
module VmCodeWriter7 {
  import opened Wrappers
  import opened Text

  // ---------------------------------------------------------------------
  // The emitted lines

  /** `writePushFromD`: store D on the top of the stack and move SP up. */
  function PushFromD(): seq<string> {
    ["@SP", "A=M", "M=D", "@SP", "M=M+1"]
  }

  /** `writePopToA`: move SP down and point A at the value popped. */
  function PopToA(): seq<string> {
    ["@SP", "M=M-1", "A=M"]
  }

  /** The formula of `neg` and `not`. */
  function UnaryFormula(command: string): Option<string> {
    if command == "neg" then Some("D=-M")
    else if command == "not" then Some("D=!M")
    else None
  }

  /** The formula of `add`, `sub`, `and` and `or`; the second operand popped
      is in M, the first in D. */
  function BinaryFormula(command: string): Option<string> {
    if command == "add" then Some("D=D+M")
    else if command == "sub" then Some("D=M-D")
    else if command == "and" then Some("D=D&M")
    else if command == "or" then Some("D=D|M")
    else None
  }

  /** The jump mnemonic of `eq`, `gt` and `lt`. */
  function CompareJump(command: string): Option<string> {
    if command == "eq" then Some("JEQ")
    else if command == "gt" then Some("JGT")
    else if command == "lt" then Some("JLT")
    else None
  }

  /** `writeCalc1Value`: pop, apply the formula, push. */
  function UnaryCode(formula: string): seq<string> {
    PopToA() + [formula] + PushFromD()
  }

  /** `writeCalc2Values`: pop into D, pop, combine, push. */
  function BinaryCode(formula: string): seq<string> {
    PopToA() + ["D=M"] + PopToA() + [formula] + PushFromD()
  }

  function TrueLabel(n: nat): string {
    "RETURN_TRUE_" + NatToString(n)
  }

  function NextLabel(n: nat): string {
    "NEXT_" + NatToString(n)
  }

  /** The instruction that defines label `l`. */
  function Definition(l: string): string {
    "(" + l + ")"
  }

  /** The middle of `writeCompare`: take the difference, jump to the true
      branch on the condition, leave `0` or `-1` in D. */
  function CompareBody(mnemonic: string, n: nat): seq<string> {
    [ "D=M-D", "@" + TrueLabel(n), "D;" + mnemonic, "D=0", "@" + NextLabel(n), "0;JMP",
      Definition(TrueLabel(n)), "D=-1", Definition(NextLabel(n)) ]
  }

  /** `writeCompare` with label number `n`. */
  function CompareCode(mnemonic: string, n: nat): seq<string> {
    PopToA() + ["D=M"] + PopToA() + CompareBody(mnemonic, n) + PushFromD()
  }

  /** The lines of a comparison, written out with its two labels. */
  lemma CompareLines(mnemonic: string, n: nat, trueLabel: string, nextLabel: string)
    requires trueLabel == "RETURN_TRUE_" + NatToString(n) && nextLabel == "NEXT_" + NatToString(n)
    ensures PopToA() + ["D=M"] + PopToA() + [
        "D=M-D", "@" + trueLabel, "D;" + mnemonic, "D=0", "@" + nextLabel, "0;JMP",
        "(" + trueLabel + ")", "D=-1", "(" + nextLabel + ")" ] + PushFromD()
      == CompareCode(mnemonic, n)
  {
  }

  /** The nine commands `writeArithmetic` accepts. */
  predicate IsArithmetic(command: string) {
    UnaryFormula(command).Some? || BinaryFormula(command).Some? || CompareJump(command).Some?
  }

  /** The lines `writeArithmetic` adds for `command` when the label counter
      is `n`, or `None` when it throws. */
  function ArithmeticCode(command: string, n: nat): Option<seq<string>> {
    if UnaryFormula(command).Some? then Some(UnaryCode(UnaryFormula(command).value))
    else if BinaryFormula(command).Some? then Some(BinaryCode(BinaryFormula(command).value))
    else if CompareJump(command).Some? then Some(CompareCode(CompareJump(command).value, n))
    else None
  }

  /** How much `writeArithmetic` advances the label counter: one for a
      comparison, none otherwise. */
  function LabelsUsed(command: string): nat {
    if CompareJump(command).Some? then 1 else 0
  }

  /** `writeArithmetic` accepts exactly the nine VM arithmetic and logical
      commands. */
  lemma ArithmeticCommands(command: string, n: nat)
    ensures ArithmeticCode(command, n).Some? <==>
      command == "neg" || command == "not" || command == "add" || command == "sub" || command == "and"
      || command == "or" || command == "eq" || command == "gt" || command == "lt"
  {
  }

  // ---------------------------------------------------------------------
  // Label definitions

  /** A line the assembler reads as a label definition. */
  predicate IsDefinition(line: string) {
    |line| > 0 && line[0] == '('
  }

  /** The label definitions among `lines`, in order. */
  function Definitions(lines: seq<string>): seq<string>
    decreases |lines|
  {
    if lines == [] then []
    else (if IsDefinition(lines[0]) then [lines[0]] else []) + Definitions(lines[1..])
  }

  lemma {:induction false} DefinitionsOfConcat(a: seq<string>, b: seq<string>)
    ensures Definitions(a + b) == Definitions(a) + Definitions(b)
    decreases |a|
  {
    if a != [] {
      assert (a + b)[1..] == a[1..] + b;
      DefinitionsOfConcat(a[1..], b);
    } else {
      assert a + b == b;
    }
  }

  lemma {:induction false} NoDefinitions(lines: seq<string>)
    requires forall i :: 0 <= i < |lines| ==> !IsDefinition(lines[i])
    ensures Definitions(lines) == []
    decreases |lines|
  {
    if lines != [] {
      NoDefinitions(lines[1..]);
    }
  }

  /** The labels the first `n` comparisons define, in order. */
  function Defined(n: nat): seq<string> {
    if n == 0 then [] else Defined(n - 1) + [Definition(TrueLabel(n - 1)), Definition(NextLabel(n - 1))]
  }

  /** A comparison defines its two labels, in that order, and nothing else. */
  lemma CompareDefinitions(mnemonic: string, n: nat)
    ensures Definitions(CompareCode(mnemonic, n)) == [Definition(TrueLabel(n)), Definition(NextLabel(n))]
  {
    var body := CompareBody(mnemonic, n);
    assert body == body[..6] + [body[6]] + [body[7]] + [body[8]];
    NoDefinitions(body[..6]);
    NoDefinitions([body[7]]);
    DefinitionsOfConcat(body[..6] + [body[6]] + [body[7]], [body[8]]);
    DefinitionsOfConcat(body[..6] + [body[6]], [body[7]]);
    DefinitionsOfConcat(body[..6], [body[6]]);
    NoDefinitions(PopToA() + ["D=M"] + PopToA());
    NoDefinitions(PushFromD());
    DefinitionsOfConcat(PopToA() + ["D=M"] + PopToA(), body);
    DefinitionsOfConcat(PopToA() + ["D=M"] + PopToA() + body, PushFromD());
  }

  /** `writeArithmetic` defines the labels of comparison number `n` when the
      command is a comparison and none otherwise. */
  lemma ArithmeticDefinitions(command: string, n: nat)
    requires ArithmeticCode(command, n).Some?
    ensures Definitions(ArithmeticCode(command, n).value)
      == Defined(n + LabelsUsed(command))[|Defined(n)|..]
  {
    var code := ArithmeticCode(command, n).value;
    if CompareJump(command).Some? {
      CompareDefinitions(CompareJump(command).value, n);
      assert Defined(n + 1) == Defined(n) + [Definition(TrueLabel(n)), Definition(NextLabel(n))];
    } else {
      NoDefinitions(code);
    }
  }

  /** Appending the code of an arithmetic command to an output that defines
      the labels of the first `n` comparisons gives one that defines those of
      the first `n + LabelsUsed(command)`. */
  lemma ArithmeticKeepsLabels(out: seq<string>, n: nat, command: string)
    requires Definitions(out) == Defined(n) && ArithmeticCode(command, n).Some?
    ensures Definitions(out + ArithmeticCode(command, n).value) == Defined(n + LabelsUsed(command))
  {
    ArithmeticDefinitions(command, n);
    DefinitionsOfConcat(out, ArithmeticCode(command, n).value);
    DefinedDistinct(n);
    assert Defined(n + LabelsUsed(command)) == Defined(n) + Defined(n + LabelsUsed(command))[|Defined(n)|..];
  }

  /** Label numbers are told apart by their text. */
  lemma LabelsDiffer(m: nat, n: nat)
    ensures Definition(TrueLabel(m)) == Definition(TrueLabel(n)) <==> m == n
    ensures Definition(NextLabel(m)) == Definition(NextLabel(n)) <==> m == n
    ensures Definition(TrueLabel(m)) != Definition(NextLabel(n))
  {
    NatToStringInjective(m, n);
    var tm, tn := Definition(TrueLabel(m)), Definition(TrueLabel(n));
    if tm == tn {
      assert tm[13..|tm| - 1] == NatToString(m);
      assert tn[13..|tn| - 1] == NatToString(n);
    }
    var nm, nn := Definition(NextLabel(m)), Definition(NextLabel(n));
    if nm == nn {
      assert nm[6..|nm| - 1] == NatToString(m);
      assert nn[6..|nn| - 1] == NatToString(n);
    }
    assert tm[1] == 'R' && Definition(NextLabel(n))[1] == 'N';
  }

  /** The label definitions of the first `n` comparisons have no label twice,
      and all of them carry a number below `n`. */
  lemma {:induction false} DefinedDistinct(n: nat)
    ensures |Defined(n)| == 2 * n
    ensures forall i, j | 0 <= i < j < |Defined(n)| :: Defined(n)[i] != Defined(n)[j]
    ensures forall i | 0 <= i < |Defined(n)| ::
      exists k | 0 <= k < n :: Defined(n)[i] == Definition(TrueLabel(k)) || Defined(n)[i] == Definition(NextLabel(k))
  {
    if n > 0 {
      DefinedDistinct(n - 1);
      var d, t, x := Defined(n - 1), Definition(TrueLabel(n - 1)), Definition(NextLabel(n - 1));
      assert Defined(n) == d + [t, x];
      forall i | 0 <= i < |d|
        ensures d[i] != t && d[i] != x
        ensures exists k | 0 <= k < n :: d[i] == Definition(TrueLabel(k)) || d[i] == Definition(NextLabel(k))
      {
        var k :| 0 <= k < n - 1 && (d[i] == Definition(TrueLabel(k)) || d[i] == Definition(NextLabel(k)));
        LabelsDiffer(k, n - 1);
        LabelsDiffer(n - 1, k);
      }
      LabelsDiffer(n - 1, n - 1);
    }
  }

  // ---------------------------------------------------------------------
  // The writer

  /** The project 07 `CodeWriter`: the label counter and the lines written
      so far. */
  class CodeWriter {
    var labelNum: nat
    var output: seq<string>

    /** The labels defined so far are those of the first `labelNum`
        comparisons, each exactly once. */
    ghost predicate Valid()
      reads this
    {
      Definitions(output) == Defined(labelNum)
    }

    constructor ()
      ensures labelNum == 0 && output == []
      ensures Valid()
    {
      labelNum := 0;
      output := [];
    }

    /** `writeCodes`: append lines to the output. */
    method WriteCodes(codes: seq<string>)
      modifies this
      ensures output == old(output) + codes && labelNum == old(labelNum)
    {
      output := output + codes;
    }

    method WritePushFromD()
      modifies this
      ensures output == old(output) + PushFromD() && labelNum == old(labelNum)
    {
      WriteCodes(["@SP", "A=M", "M=D", "@SP", "M=M+1"]);
    }

    method WritePopToA()
      modifies this
      ensures output == old(output) + PopToA() && labelNum == old(labelNum)
    {
      WriteCodes(["@SP", "M=M-1", "A=M"]);
    }

    /** `writePushPop`: only `push constant` emits code (`@index`, `D=A`,
        then a push); every other command or segment emits nothing. It
        defines no label, so the labels stay unique. */
    method WritePushPop(command: string, segment: Option<string>, index: Option<string>)
      requires Valid()
      modifies this
      ensures Valid()
      ensures labelNum == old(labelNum)
      ensures command == "push" && segment == Some("constant") ==>
        output == old(output) + ["@" + JsText(index), "D=A"] + PushFromD()
      ensures !(command == "push" && segment == Some("constant")) ==> output == old(output)
    {
      if command == "push" {
        if segment == Some("constant") {
          ghost var out0 := output;
          ghost var codes := ["@" + JsText(index), "D=A"] + PushFromD();
          NoDefinitions(codes);
          DefinitionsOfConcat(out0, codes);
          WriteCodes(["@" + JsText(index), "D=A"]);
          WritePushFromD();
          assert output == out0 + codes;
        }
      }
    }

    /** `writeCalc1Value`; it throws `c` for a command other than `neg` and `not`. */
    method WriteCalc1Value(command: string) returns (r: Result<()>)
      modifies this
      ensures labelNum == old(labelNum)
      ensures r.Ok? <==> UnaryFormula(command).Some?
      ensures r.Ok? ==> output == old(output) + UnaryCode(UnaryFormula(command).value)
      ensures r.Err? ==> output == old(output) && r.msg == "c"
    {
      var formula;
      if command == "neg" {
        formula := "D=-M";
      } else if command == "not" {
        formula := "D=!M";
      } else {
        return Err("c");
      }
      WritePopToA();
      WriteCodes([formula]);
      WritePushFromD();
      r := Ok(());
    }

    /** `writeCalc2Values`. */
    method WriteCalc2Values(command: string) returns (r: Result<()>)
      modifies this
      ensures labelNum == old(labelNum)
      ensures r.Ok? <==> BinaryFormula(command).Some?
      ensures r.Ok? ==> output == old(output) + BinaryCode(BinaryFormula(command).value)
      ensures r.Err? ==> output == old(output) && r.msg == "invalid command for writeCalc2Values"
    {
      var formula;
      if command == "add" {
        formula := "D=D+M";
      } else if command == "sub" {
        formula := "D=M-D";
      } else if command == "and" {
        formula := "D=D&M";
      } else if command == "or" {
        formula := "D=D|M";
      } else {
        return Err("invalid command for writeCalc2Values");
      }
      WritePopToA();
      WriteCodes(["D=M"]);
      WritePopToA();
      WriteCodes([formula]);
      WritePushFromD();
      r := Ok(());
    }

    /** `writeCompare`: the comparison with the current label number, which
        then goes up by one. */
    method WriteCompare(command: string) returns (r: Result<()>)
      modifies this
      ensures r.Ok? <==> CompareJump(command).Some?
      ensures r.Ok? ==>
        output == old(output) + CompareCode(CompareJump(command).value, old(labelNum))
        && labelNum == old(labelNum) + 1
      ensures r.Err? ==>
        output == old(output) && labelNum == old(labelNum) && r.msg == "invalid command for writeCompare"
    {
      var mnemonic;
      if command == "eq" {
        mnemonic := "JEQ";
      } else if command == "gt" {
        mnemonic := "JGT";
      } else if command == "lt" {
        mnemonic := "JLT";
      } else {
        return Err("invalid command for writeCompare");
      }
      assert CompareJump(command) == Some(mnemonic);
      WriteComparison(mnemonic);
      r := Ok(());
    }

    /** The lines of one comparison with the current label number, and the
        counter moved on. */
    method WriteComparison(mnemonic: string)
      modifies this
      ensures output == old(output) + CompareCode(mnemonic, old(labelNum))
      ensures labelNum == old(labelNum) + 1
    {
      WritePopToA();
      WriteCodes(["D=M"]);
      WritePopToA();
      var trueLabel := "RETURN_TRUE_" + NatToString(labelNum);
      var nextLabel := "NEXT_" + NatToString(labelNum);
      WriteCodes([
        "D=M-D", "@" + trueLabel, "D;" + mnemonic, "D=0", "@" + nextLabel, "0;JMP",
        "(" + trueLabel + ")", "D=-1", "(" + nextLabel + ")"
      ]);
      WritePushFromD();
      CompareLines(mnemonic, labelNum, trueLabel, nextLabel);
      labelNum := labelNum + 1;
    }

    /** `writeArithmetic`: dispatch to the helper for the command's group, or
        throw `invalid arithmetic command`. The labels stay unique. */
    method WriteArithmetic(command: string) returns (r: Result<()>)
      requires Valid()
      modifies this
      ensures Valid()
      ensures r.Ok? <==> ArithmeticCode(command, old(labelNum)).Some?
      ensures r.Ok? ==>
        output == old(output) + ArithmeticCode(command, old(labelNum)).value
        && labelNum == old(labelNum) + LabelsUsed(command)
      ensures r.Err? ==>
        output == old(output) && labelNum == old(labelNum) && r.msg == "invalid arithmetic command"
    {
      ghost var n0, out0 := labelNum, output;
      ghost var code := ArithmeticCode(command, n0);
      if command == "neg" || command == "not" {
        r := WriteCalc1Value(command);
      } else if command == "add" || command == "sub" || command == "and" || command == "or" {
        r := WriteCalc2Values(command);
      } else if command == "eq" || command == "gt" || command == "lt" {
        r := WriteCompare(command);
      } else {
        return Err("invalid arithmetic command");
      }
      ArithmeticKeepsLabels(out0, n0, command);
    }
  }

  /** While the writer is valid, no label is defined twice in its output. */
  lemma LabelsUnique(w: CodeWriter)
    requires w.Valid()
    ensures forall i, j | 0 <= i < j < |Definitions(w.output)| :: Definitions(w.output)[i] != Definitions(w.output)[j]
  {
    DefinedDistinct(w.labelNum);
  }
}
