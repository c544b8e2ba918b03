/** The code writer of the project 08 VM translator
    (projects/08/VMTranslater/codeWriter.js): the project 07 arithmetic, and
    `push`/`pop` for all eight memory segments. */
module VmCodeWriter8 {
  import opened Wrappers
  import opened Text
  import opened VmParser
  import opened VmCodeWriter7

  // ---------------------------------------------------------------------
  // The emitted lines

  /** `getLabelBySegment`: the symbol holding a segment's base, or the base
      address itself for `pointer` and `temp`; any other segment throws. */
  function SegmentLabel(segment: Option<string>): Result<string> {
    if segment == Some("local") then Ok("LCL")
    else if segment == Some("argument") then Ok("ARG")
    else if segment == Some("this") then Ok("THIS")
    else if segment == Some("that") then Ok("THAT")
    else if segment == Some("pointer") then Ok("3")
    else if segment == Some("temp") then Ok("5")
    else Err("invalid segment")
  }

  /** The segments reached through a base pointer:
      `['local', 'argument', 'this', 'that'].includes(segment)`. */
  predicate IsReferenced(segment: Option<string>) {
    segment == Some("local") || segment == Some("argument") || segment == Some("this") || segment == Some("that")
  }

  /** The segments at a fixed place in RAM: `['pointer', 'temp'].includes(segment)`. */
  predicate IsFixed(segment: Option<string>) {
    segment == Some("pointer") || segment == Some("temp")
  }

  /** How far `Number(index)` moves A: NaN and 0 move it not at all. */
  function Offset(index: Option<string>): (r: nat)
    ensures r > 0 ==> JsNumber(index) == Some(r)
    ensures r == 0 <==> JsNumber(index).None? || JsNumber(index) == Some(0)
  {
    if JsNumber(index).Some? then JsNumber(index).value else 0
  }

  /** `new Array(indexNum).fill('A=A+1')`, written when `indexNum` is truthy. */
  function Increments(index: Option<string>): (r: seq<string>)
    ensures |r| == Offset(index)
    ensures forall i :: 0 <= i < |r| ==> r[i] == "A=A+1"
  {
    seq(Offset(index), _ => "A=A+1")
  }

  /** The symbol of a static variable: the output file's name, a dot and the index. */
  function StaticSymbol(fileName: string, index: Option<string>): string {
    fileName + "." + JsText(index)
  }

  function PushConstantCode(index: Option<string>): seq<string> {
    ["@" + JsText(index), "D=A"] + PushFromD()
  }

  function PushReferencedCode(base: string, index: Option<string>): seq<string> {
    ["@" + base, "A=M"] + Increments(index) + ["D=M"] + PushFromD()
  }

  function PopReferencedCode(base: string, index: Option<string>): seq<string> {
    PopToA() + ["D=M", "@" + base, "A=M"] + Increments(index) + ["M=D"]
  }

  function PushFixedCode(base: string, index: Option<string>): seq<string> {
    ["@" + base] + Increments(index) + ["D=M"] + PushFromD()
  }

  function PopFixedCode(base: string, index: Option<string>): seq<string> {
    PopToA() + ["D=M", "@" + base] + Increments(index) + ["M=D"]
  }

  function PushStaticCode(fileName: string, index: Option<string>): seq<string> {
    ["@" + StaticSymbol(fileName, index), "D=M"] + PushFromD()
  }

  function PopStaticCode(fileName: string, index: Option<string>): seq<string> {
    PopToA() + ["D=M", "@" + StaticSymbol(fileName, index), "M=D"]
  }

  /** The lines `writePushPop` adds, or the error it throws. */
  function PushPopCode(command: CommandType, segment: Option<string>, index: Option<string>, fileName: string): (r: Result<seq<string>>)
    ensures command != Push && command != Pop <==> r == Err("invalid command for writePushPop")
    ensures r == Err("invalid segment") <==>
      (command == Push && !IsSegment(segment)) || (command == Pop && (!IsSegment(segment) || segment == Some("constant")))
    ensures r.Ok? <==> (command == Push && IsSegment(segment)) || (command == Pop && IsSegment(segment) && segment != Some("constant"))
  {
    if command == Push then
      if segment == Some("constant") then Ok(PushConstantCode(index))
      else if IsReferenced(segment) then Ok(PushReferencedCode(SegmentLabel(segment).value, index))
      else if IsFixed(segment) then Ok(PushFixedCode(SegmentLabel(segment).value, index))
      else if segment == Some("static") then Ok(PushStaticCode(fileName, index))
      else Err("invalid segment")
    else if command == Pop then
      if IsReferenced(segment) then Ok(PopReferencedCode(SegmentLabel(segment).value, index))
      else if IsFixed(segment) then Ok(PopFixedCode(SegmentLabel(segment).value, index))
      else if segment == Some("static") then Ok(PopStaticCode(fileName, index))
      else Err("invalid segment")
    else Err("invalid command for writePushPop")
  }

  /** The eight segments of the VM. */
  predicate IsSegment(segment: Option<string>) {
    segment == Some("constant") || segment == Some("static") || IsReferenced(segment) || IsFixed(segment)
  }

  /** `writePushPop` fails exactly for a command other than push and pop
      (`invalid command for writePushPop`), for a segment that is not one of
      the eight, and for a pop to `constant` (both `invalid segment`). */
  lemma PushPopErrors(command: CommandType, segment: Option<string>, index: Option<string>, fileName: string)
    ensures var r := PushPopCode(command, segment, index, fileName);
      && (command != Push && command != Pop <==> r == Err("invalid command for writePushPop"))
      && (r == Err("invalid segment") <==>
            (command == Push && !IsSegment(segment))
            || (command == Pop && (!IsSegment(segment) || segment == Some("constant"))))
      && (r.Ok? <==> (command == Push && IsSegment(segment)) || (command == Pop && IsSegment(segment) && segment != Some("constant")))
  {
  }

  /** Every segment with a base has a label, and only those six do. */
  lemma SegmentLabels(segment: Option<string>)
    ensures SegmentLabel(segment).Ok? <==> IsReferenced(segment) || IsFixed(segment)
    ensures SegmentLabel(segment).Err? ==> SegmentLabel(segment).msg == "invalid segment"
  {
  }

  /** The number of lines equal to `x`. */
  function Count(lines: seq<string>, x: string): nat
    decreases |lines|
  {
    if lines == [] then 0 else (if lines[0] == x then 1 else 0) + Count(lines[1..], x)
  }

  lemma {:induction false} CountOfConcat(a: seq<string>, b: seq<string>, x: string)
    ensures Count(a + b, x) == Count(a, x) + Count(b, x)
    decreases |a|
  {
    if a != [] {
      assert (a + b)[1..] == a[1..] + b;
      CountOfConcat(a[1..], b, x);
    } else {
      assert a + b == b;
    }
  }

  lemma {:induction false} CountAll(lines: seq<string>, x: string)
    requires forall i :: 0 <= i < |lines| ==> lines[i] == x
    ensures Count(lines, x) == |lines|
    decreases |lines|
  {
    if lines != [] {
      CountAll(lines[1..], x);
    }
  }

  lemma {:induction false} CountNone(lines: seq<string>, x: string)
    requires forall i :: 0 <= i < |lines| ==> lines[i] != x
    ensures Count(lines, x) == 0
    decreases |lines|
  {
    if lines != [] {
      CountNone(lines[1..], x);
    }
  }

  /** Reaching element `index` of a segment with a base takes exactly
      `Number(index)` `A=A+1` lines, for push and for pop. */
  lemma OffsetLines(command: CommandType, segment: Option<string>, index: Option<string>, fileName: string)
    requires command == Push || command == Pop
    requires IsReferenced(segment) || IsFixed(segment)
    ensures Count(PushPopCode(command, segment, index, fileName).value, "A=A+1") == Offset(index)
  {
    var base := SegmentLabel(segment).value;
    var inc := Increments(index);
    CountAll(inc, "A=A+1");
    var pre, post;
    if command == Push {
      post := ["D=M"] + PushFromD();
      pre := if IsReferenced(segment) then ["@" + base, "A=M"] else ["@" + base];
    } else {
      post := ["M=D"];
      pre := if IsReferenced(segment) then PopToA() + ["D=M", "@" + base, "A=M"] else PopToA() + ["D=M", "@" + base];
    }
    assert PushPopCode(command, segment, index, fileName).value == pre + inc + post;
    assert ("@" + base)[0] == '@';
    CountNone(pre, "A=A+1");
    CountNone(post, "A=A+1");
    CountOfConcat(pre, inc, "A=A+1");
    CountOfConcat(pre + inc, post, "A=A+1");
  }

  /** A numeric index moves A by its value. */
  lemma OffsetOfNumber(n: nat)
    ensures Offset(Some(NatToString(n))) == n
  {
    JsNumberOfDecimal(n);
  }

  /** Lines that each start with `@`, `A`, `D` or `M` define no label. */
  lemma NoDefinitionsByHead(lines: seq<string>)
    requires forall i :: 0 <= i < |lines| ==> |lines[i]| > 0 && lines[i][0] != '('
    ensures Definitions(lines) == []
  {
    NoDefinitions(lines);
  }

  /** Three consecutive pieces without labels define none together. */
  lemma NoDefinitionsOfThree(a: seq<string>, b: seq<string>, c: seq<string>)
    requires Definitions(a) == [] && Definitions(b) == [] && Definitions(c) == []
    ensures Definitions(a + b + c) == []
  {
    DefinitionsOfConcat(a, b);
    DefinitionsOfConcat(a + b, c);
  }

  /** The pop that starts a `pop` defines no label. */
  lemma PopDefinesNothing()
    ensures Definitions(PopToA()) == []
  {
    NoDefinitionsByHead(PopToA());
  }

  /** Code of the shape `head`, `Number(index)` increments, `D=M`, push
      defines no label when `head` defines none. */
  lemma PushShapeDefinesNothing(head: seq<string>, index: Option<string>)
    requires Definitions(head) == []
    ensures Definitions(head + Increments(index) + ["D=M"] + PushFromD()) == []
  {
    NoDefinitionsByHead(Increments(index));
    NoDefinitionsByHead(["D=M"]);
    NoDefinitionsByHead(PushFromD());
    DefinitionsOfConcat(head, Increments(index));
    DefinitionsOfConcat(head + Increments(index), ["D=M"]);
    DefinitionsOfConcat(head + Increments(index) + ["D=M"], PushFromD());
  }

  lemma PushReferencedDefinesNothing(base: string, index: Option<string>)
    ensures Definitions(PushReferencedCode(base, index)) == []
  {
    assert ("@" + base)[0] == '@';
    NoDefinitionsByHead(["@" + base, "A=M"]);
    PushShapeDefinesNothing(["@" + base, "A=M"], index);
  }

  lemma PopReferencedDefinesNothing(base: string, index: Option<string>)
    ensures Definitions(PopReferencedCode(base, index)) == []
  {
    assert ("@" + base)[0] == '@';
    NoDefinitionsByHead(Increments(index));
    NoDefinitionsByHead(["D=M", "@" + base, "A=M"]);
    NoDefinitionsByHead(["M=D"]);
    PopDefinesNothing();
    DefinitionsOfConcat(PopToA(), ["D=M", "@" + base, "A=M"]);
    NoDefinitionsOfThree(PopToA() + ["D=M", "@" + base, "A=M"], Increments(index), ["M=D"]);
  }

  lemma PushFixedDefinesNothing(base: string, index: Option<string>)
    ensures Definitions(PushFixedCode(base, index)) == []
  {
    assert ("@" + base)[0] == '@';
    NoDefinitionsByHead(["@" + base]);
    PushShapeDefinesNothing(["@" + base], index);
  }

  lemma PopFixedDefinesNothing(base: string, index: Option<string>)
    ensures Definitions(PopFixedCode(base, index)) == []
  {
    assert ("@" + base)[0] == '@';
    NoDefinitionsByHead(Increments(index));
    NoDefinitionsByHead(["D=M", "@" + base]);
    NoDefinitionsByHead(["M=D"]);
    PopDefinesNothing();
    DefinitionsOfConcat(PopToA(), ["D=M", "@" + base]);
    NoDefinitionsOfThree(PopToA() + ["D=M", "@" + base], Increments(index), ["M=D"]);
  }

  lemma DirectDefinesNothing(fileName: string, index: Option<string>)
    ensures Definitions(PushConstantCode(index)) == []
    ensures Definitions(PushStaticCode(fileName, index)) == []
    ensures Definitions(PopStaticCode(fileName, index)) == []
  {
    assert ("@" + JsText(index))[0] == '@';
    assert ("@" + StaticSymbol(fileName, index))[0] == '@';
    NoDefinitionsByHead(PushConstantCode(index));
    NoDefinitionsByHead(PushStaticCode(fileName, index));
    NoDefinitionsByHead(PopStaticCode(fileName, index));
  }

  /** `push`/`pop` code defines no label. */
  lemma PushPopDefinesNothing(command: CommandType, segment: Option<string>, index: Option<string>, fileName: string)
    requires PushPopCode(command, segment, index, fileName).Ok?
    ensures Definitions(PushPopCode(command, segment, index, fileName).value) == []
  {
    if IsReferenced(segment) {
      PushReferencedDefinesNothing(SegmentLabel(segment).value, index);
      PopReferencedDefinesNothing(SegmentLabel(segment).value, index);
    } else if IsFixed(segment) {
      PushFixedDefinesNothing(SegmentLabel(segment).value, index);
      PopFixedDefinesNothing(SegmentLabel(segment).value, index);
    } else {
      DirectDefinesNothing(fileName, index);
    }
  }

  /** The file name `constructor` derives for a `.vm` path: the output path
      is `dir/<path without extension>.asm`, and what follows its last `/`
      is the name, whatever the directory. */
  function FileNameOf(dir: string, filePath: string): string {
    var outputPath := dir + "/" + SliceTo(filePath, LastIndexOfChar(filePath, '.')) + ".asm";
    outputPath[LastIndexOfChar(outputPath, '/') + 1..]
  }

  /** The static symbols of a file use its base name with `.asm`, never the
      directory the translator runs from. */
  lemma FileNameIgnoresDirectory(dir: string, filePath: string)
    ensures FileNameOf(dir, filePath) == BaseName(SliceTo(filePath, LastIndexOfChar(filePath, '.')) + ".asm")
    ensures '/' !in FileNameOf(dir, filePath)
  {
    var out := SliceTo(filePath, LastIndexOfChar(filePath, '.')) + ".asm";
    assert dir + "/" + SliceTo(filePath, LastIndexOfChar(filePath, '.')) + ".asm" == dir + "/" + out;
    BaseNameUnderDirectory(dir, out);
  }

  // ---------------------------------------------------------------------
  // The writer

  /** The project 08 `CodeWriter`: the file name used for statics, the label
      counter and the lines written so far. */
  class CodeWriter {
    const fileName: string
    var labelNum: nat
    var output: seq<string>

    /** The labels defined so far are those of the first `labelNum`
        comparisons, each exactly once. */
    ghost predicate Valid()
      reads this
    {
      Definitions(output) == Defined(labelNum)
    }

    /** `dir` is the directory of the translator script (`__dirname`). */
    constructor (dir: string, filePath: string)
      ensures fileName == FileNameOf(dir, filePath)
      ensures labelNum == 0 && output == []
      ensures Valid()
    {
      var index := LastIndexOfChar(filePath, '.');
      var outputPath := dir + "/" + SliceTo(filePath, index) + ".asm";
      var index2 := LastIndexOfChar(outputPath, '/');
      fileName := outputPath[index2 + 1..];
      labelNum := 0;
      output := [];
    }

    method WriteCodes(codes: seq<string>)
      modifies this
      ensures output == old(output) + codes && labelNum == old(labelNum)
    {
      output := output + codes;
    }

    method WritePushFromD()
      modifies this
      ensures output == old(output) + PushFromD() && labelNum == old(labelNum)
    {
      WriteCodes(["@SP", "A=M", "M=D", "@SP", "M=M+1"]);
    }

    method WritePopToA()
      modifies this
      ensures output == old(output) + PopToA() && labelNum == old(labelNum)
    {
      WriteCodes(["@SP", "M=M-1", "A=M"]);
    }

    method WriteCalc1Value(command: string) returns (r: Result<()>)
      modifies this
      ensures labelNum == old(labelNum)
      ensures r.Ok? <==> UnaryFormula(command).Some?
      ensures r.Ok? ==> output == old(output) + UnaryCode(UnaryFormula(command).value)
      ensures r.Err? ==> output == old(output) && r.msg == "invalid command for writeCalc1Value"
    {
      var formula;
      if command == "neg" {
        formula := "D=-M";
      } else if command == "not" {
        formula := "D=!M";
      } else {
        return Err("invalid command for writeCalc1Value");
      }
      WritePopToA();
      WriteCodes([formula]);
      WritePushFromD();
      r := Ok(());
    }

    method WriteCalc2Values(command: string) returns (r: Result<()>)
      modifies this
      ensures labelNum == old(labelNum)
      ensures r.Ok? <==> BinaryFormula(command).Some?
      ensures r.Ok? ==> output == old(output) + BinaryCode(BinaryFormula(command).value)
      ensures r.Err? ==> output == old(output) && r.msg == "invalid command for writeCalc2Values"
    {
      var formula;
      if command == "add" {
        formula := "D=D+M";
      } else if command == "sub" {
        formula := "D=M-D";
      } else if command == "and" {
        formula := "D=D&M";
      } else if command == "or" {
        formula := "D=D|M";
      } else {
        return Err("invalid command for writeCalc2Values");
      }
      WritePopToA();
      WriteCodes(["D=M"]);
      WritePopToA();
      WriteCodes([formula]);
      WritePushFromD();
      r := Ok(());
    }

    method WriteCompare(command: string) returns (r: Result<()>)
      modifies this
      ensures r.Ok? <==> CompareJump(command).Some?
      ensures r.Ok? ==>
        output == old(output) + CompareCode(CompareJump(command).value, old(labelNum))
        && labelNum == old(labelNum) + 1
      ensures r.Err? ==>
        output == old(output) && labelNum == old(labelNum) && r.msg == "invalid command for writeCompare"
    {
      var mnemonic;
      if command == "eq" {
        mnemonic := "JEQ";
      } else if command == "gt" {
        mnemonic := "JGT";
      } else if command == "lt" {
        mnemonic := "JLT";
      } else {
        return Err("invalid command for writeCompare");
      }
      assert CompareJump(command) == Some(mnemonic);
      WriteComparison(mnemonic);
      r := Ok(());
    }

    /** The lines of one comparison with the current label number, and the
        counter moved on. */
    method WriteComparison(mnemonic: string)
      modifies this
      ensures output == old(output) + CompareCode(mnemonic, old(labelNum))
      ensures labelNum == old(labelNum) + 1
    {
      WritePopToA();
      WriteCodes(["D=M"]);
      WritePopToA();
      var trueLabel := "RETURN_TRUE_" + NatToString(labelNum);
      var nextLabel := "NEXT_" + NatToString(labelNum);
      WriteCodes([
        "D=M-D", "@" + trueLabel, "D;" + mnemonic, "D=0", "@" + nextLabel, "0;JMP",
        "(" + trueLabel + ")", "D=-1", "(" + nextLabel + ")"
      ]);
      WritePushFromD();
      CompareLines(mnemonic, labelNum, trueLabel, nextLabel);
      labelNum := labelNum + 1;
    }

    /** `writeArithmetic`, which throws `invalid command for writeArithmetic`
        for anything but the nine commands. The labels stay unique. */
    method WriteArithmetic(command: string) returns (r: Result<()>)
      requires Valid()
      modifies this
      ensures Valid()
      ensures r.Ok? <==> ArithmeticCode(command, old(labelNum)).Some?
      ensures r.Ok? ==>
        output == old(output) + ArithmeticCode(command, old(labelNum)).value
        && labelNum == old(labelNum) + LabelsUsed(command)
      ensures r.Err? ==>
        output == old(output) && labelNum == old(labelNum) && r.msg == "invalid command for writeArithmetic"
    {
      ghost var n0, out0 := labelNum, output;
      ghost var code := ArithmeticCode(command, n0);
      if command == "neg" || command == "not" {
        r := WriteCalc1Value(command);
      } else if command == "add" || command == "sub" || command == "and" || command == "or" {
        r := WriteCalc2Values(command);
      } else if command == "eq" || command == "gt" || command == "lt" {
        r := WriteCompare(command);
      } else {
        return Err("invalid command for writeArithmetic");
      }
      ArithmeticKeepsLabels(out0, n0, command);
    }

    /** `writePushFromReferencedSegment`; it throws before writing anything
        when the segment has no label. */
    method WritePushFromReferencedSegment(segment: Option<string>, index: Option<string>) returns (r: Result<()>)
      modifies this
      ensures labelNum == old(labelNum)
      ensures r == (if SegmentLabel(segment).Ok? then Ok(()) else Err("invalid segment"))
      ensures r.Ok? ==> output == old(output) + PushReferencedCode(SegmentLabel(segment).value, index)
      ensures r.Err? ==> output == old(output)
    {
      var base :- SegmentLabel(segment);
      WriteCodes(["@" + base, "A=M"]);
      var indexNum := JsNumber(index);
      if indexNum.Some? && indexNum.value != 0 {
        WriteCodes(seq(indexNum.value, _ => "A=A+1"));
      }
      WriteCodes(["D=M"]);
      WritePushFromD();
      r := Ok(());
    }

    /** `writePopToReferencedSegment`; it pops before it looks the segment
        up, so a segment without a label leaves the pop written. */
    method WritePopToReferencedSegment(segment: Option<string>, index: Option<string>) returns (r: Result<()>)
      modifies this
      ensures labelNum == old(labelNum)
      ensures r == (if SegmentLabel(segment).Ok? then Ok(()) else Err("invalid segment"))
      ensures r.Ok? ==> output == old(output) + PopReferencedCode(SegmentLabel(segment).value, index)
      ensures r.Err? ==> output == old(output) + PopToA()
    {
      WritePopToA();
      var base :- SegmentLabel(segment);
      WriteCodes(["D=M", "@" + base, "A=M"]);
      var indexNum := JsNumber(index);
      if indexNum.Some? && indexNum.value != 0 {
        WriteCodes(seq(indexNum.value, _ => "A=A+1"));
      }
      WriteCodes(["M=D"]);
      r := Ok(());
    }

    method WritePushFromFixedSegment(segment: Option<string>, index: Option<string>) returns (r: Result<()>)
      modifies this
      ensures labelNum == old(labelNum)
      ensures r == (if SegmentLabel(segment).Ok? then Ok(()) else Err("invalid segment"))
      ensures r.Ok? ==> output == old(output) + PushFixedCode(SegmentLabel(segment).value, index)
      ensures r.Err? ==> output == old(output)
    {
      var base :- SegmentLabel(segment);
      WriteCodes(["@" + base]);
      var indexNum := JsNumber(index);
      if indexNum.Some? && indexNum.value != 0 {
        WriteCodes(seq(indexNum.value, _ => "A=A+1"));
      }
      WriteCodes(["D=M"]);
      WritePushFromD();
      r := Ok(());
    }

    method WritePopToFixedSegment(segment: Option<string>, index: Option<string>) returns (r: Result<()>)
      modifies this
      ensures labelNum == old(labelNum)
      ensures r == (if SegmentLabel(segment).Ok? then Ok(()) else Err("invalid segment"))
      ensures r.Ok? ==> output == old(output) + PopFixedCode(SegmentLabel(segment).value, index)
      ensures r.Err? ==> output == old(output) + PopToA()
    {
      WritePopToA();
      var base :- SegmentLabel(segment);
      WriteCodes(["D=M", "@" + base]);
      var indexNum := JsNumber(index);
      if indexNum.Some? && indexNum.value != 0 {
        WriteCodes(seq(indexNum.value, _ => "A=A+1"));
      }
      WriteCodes(["M=D"]);
      r := Ok(());
    }

    /** The push half of `writePushPop`: push from any of the eight
        segments, or throw `invalid segment`. */
    method WritePush(segment: Option<string>, index: Option<string>) returns (r: Result<()>)
      modifies this
      ensures labelNum == old(labelNum)
      ensures var code := PushPopCode(Push, segment, index, fileName);
        && (r.Ok? <==> code.Ok?)
        && (r.Ok? ==> output == old(output) + code.value)
        && (r.Err? ==> output == old(output) && r == code.PropagateFailure())
    {
      if segment == Some("constant") {
        WriteCodes(["@" + JsText(index), "D=A"]);
        WritePushFromD();
        r := Ok(());
      } else if IsReferenced(segment) {
        r := WritePushFromReferencedSegment(segment, index);
      } else if IsFixed(segment) {
        r := WritePushFromFixedSegment(segment, index);
      } else if segment == Some("static") {
        WriteCodes(["@" + fileName + "." + JsText(index), "D=M"]);
        WritePushFromD();
        assert "@" + fileName + "." + JsText(index) == "@" + StaticSymbol(fileName, index);
        r := Ok(());
      } else {
        r := Err("invalid segment");
      }
    }

    /** The pop half of `writePushPop`: pop to any segment but `constant`,
        or throw `invalid segment`. */
    method WritePop(segment: Option<string>, index: Option<string>) returns (r: Result<()>)
      modifies this
      ensures labelNum == old(labelNum)
      ensures var code := PushPopCode(Pop, segment, index, fileName);
        && (r.Ok? <==> code.Ok?)
        && (r.Ok? ==> output == old(output) + code.value)
        && (r.Err? ==> output == old(output) && r == code.PropagateFailure())
    {
      if IsReferenced(segment) {
        r := WritePopToReferencedSegment(segment, index);
      } else if IsFixed(segment) {
        r := WritePopToFixedSegment(segment, index);
      } else if segment == Some("static") {
        WritePopToA();
        WriteCodes(["D=M", "@" + fileName + "." + JsText(index), "M=D"]);
        assert "@" + fileName + "." + JsText(index) == "@" + StaticSymbol(fileName, index);
        r := Ok(());
      } else {
        r := Err("invalid segment");
      }
    }

    /** `writePushPop`: `C_PUSH` and `C_POP` go to their halves, any other
        command throws `invalid command for writePushPop`. The labels stay
        unique. */
    method WritePushPop(command: CommandType, segment: Option<string>, index: Option<string>) returns (r: Result<()>)
      requires Valid()
      modifies this
      ensures Valid() && labelNum == old(labelNum)
      ensures r.Ok? <==> PushPopCode(command, segment, index, fileName).Ok?
      ensures r.Ok? ==> output == old(output) + PushPopCode(command, segment, index, fileName).value
      ensures r.Err? ==> output == old(output) && r == PushPopCode(command, segment, index, fileName).PropagateFailure()
    {
      ghost var out0 := output;
      if command == Push {
        r := WritePush(segment, index);
      } else if command == Pop {
        r := WritePop(segment, index);
      } else {
        return Err("invalid command for writePushPop");
      }
      if r.Ok? {
        PushPopDefinesNothing(command, segment, index, fileName);
        DefinitionsOfConcat(out0, PushPopCode(command, segment, index, fileName).value);
      }
    }
  }
}
