/** What the code of the two VM translators does when the Hack computer
    runs it. The stack pointer is RAM word 0 (`SP`) and points just above
    the top of the stack; the segment bases are RAM words 1 to 4. Every
    arithmetic command replaces its operands by its answer, and every
    `push`/`pop` moves one word between the stack and its segment, with no
    other RAM word changed. */
module VmCodeSemantics {
  import opened Wrappers
  import opened Text
  import opened HackMachine
  import opened VmCodeWriter7

  // ---------------------------------------------------------------------
  // The VM's meaning of the arithmetic commands

  /** `neg` and `not` on the top word `y`. */
  function UnaryOp(command: string, y: Word): Word {
    if command == "neg" then Wrap(0 - y) else Not(y)
  }

  /** `add`, `sub`, `and` and `or` on `x` (below) and `y` (the top). */
  function BinaryOp(command: string, x: Word, y: Word): Word {
    if command == "add" then Wrap(x + y)
    else if command == "sub" then Wrap(x - y)
    else if command == "and" then And(x, y)
    else Or(x, y)
  }

  /** `eq`, `gt` and `lt` compare `x` and `y` as two's-complement numbers. */
  predicate CompareOp(command: string, x: Word, y: Word) {
    if command == "eq" then x == y
    else if command == "gt" then Signed(x) > Signed(y)
    else Signed(x) < Signed(y)
  }

  /** The VM's true and false. */
  function Truth(b: bool): Word {
    if b then 0xFFFF else 0
  }

  // ---------------------------------------------------------------------
  // Reading the emitted lines

  lemma {:induction false} LoadDecodes(s: string)
    ensures Decode("@" + s) == Some(Load(s))
  {
    assert ("@" + s)[0] == '@' && ("@" + s)[1..] == s;
  }

  lemma {:induction false} DefineDecodes(l: string)
    ensures Decode("(" + l + ")") == Some(Define(l))
  {
    var line := "(" + l + ")";
    assert line[0] == '(' && line[|line| - 1] == ')' && line[1..|line| - 1] == l;
  }

  /** The lines that move words between the stack and the registers. */
  lemma {:induction false} StackLinesDecode()
    ensures Decode("@SP") == Some(Load("SP"))
    ensures Decode("A=M") == Some(Assign(DestA, RegM))
    ensures Decode("M=D") == Some(Assign(DestM, RegD))
    ensures Decode("M=M+1") == Some(Assign(DestM, MPlusOne))
    ensures Decode("M=M-1") == Some(Assign(DestM, MMinusOne))
    ensures Decode("D=M") == Some(Assign(DestD, RegM))
    ensures Decode("D=A") == Some(Assign(DestD, RegA))
    ensures Decode("A=A+1") == Some(Assign(DestA, APlusOne))
  {
    assert "@SP"[1..] == "SP";
    assert "A=M"[2..] == "M";
    assert "M=D"[2..] == "D";
    assert "M=M+1"[2..] == "M+1";
    assert "M=M-1"[2..] == "M-1";
    assert "D=M"[2..] == "M";
    assert "D=A"[2..] == "A";
    assert "A=A+1"[2..] == "A+1";
  }

  /** The formulas of the arithmetic commands. */
  lemma {:induction false} FormulaLinesDecode()
    ensures Decode("D=-M") == Some(Assign(DestD, NegM))
    ensures Decode("D=!M") == Some(Assign(DestD, NotM))
    ensures Decode("D=D+M") == Some(Assign(DestD, DPlusM))
    ensures Decode("D=M-D") == Some(Assign(DestD, MMinusD))
    ensures Decode("D=D&M") == Some(Assign(DestD, DAndM))
    ensures Decode("D=D|M") == Some(Assign(DestD, DOrM))
  {
    assert "D=-M"[2..] == "-M";
    assert "D=!M"[2..] == "!M";
    assert "D=D+M"[2..] == "D+M";
    assert "D=M-D"[2..] == "M-D";
    assert "D=D&M"[2..] == "D&M";
    assert "D=D|M"[2..] == "D|M";
  }

  /** The lines of a comparison that are neither loads nor labels. */
  lemma {:induction false} CompareLinesDecode()
    ensures Decode("D;JEQ") == Some(Jump(RegD, JEQ))
    ensures Decode("D;JGT") == Some(Jump(RegD, JGT))
    ensures Decode("D;JLT") == Some(Jump(RegD, JLT))
    ensures Decode("0;JMP") == Some(Jump(Zero, JMP))
    ensures Decode("D=0") == Some(Assign(DestD, Zero))
    ensures Decode("D=-1") == Some(Assign(DestD, MinusOne))
  {
    assert "D;JEQ"[..1] == "D" && "D;JEQ"[2..] == "JEQ";
    assert "D;JGT"[..1] == "D" && "D;JGT"[2..] == "JGT";
    assert "D;JLT"[..1] == "D" && "D;JLT"[2..] == "JLT";
    assert "0;JMP"[..1] == "0" && "0;JMP"[2..] == "JMP";
    assert "D=0"[2..] == "0";
    assert "D=-1"[2..] == "-1";
  }

  // ---------------------------------------------------------------------
  // The shared pieces

  const PushFromDCode: seq<Instr> :=
    [Load("SP"), Assign(DestA, RegM), Assign(DestM, RegD), Load("SP"), Assign(DestM, MPlusOne)]

  const PopToACode: seq<Instr> :=
    [Load("SP"), Assign(DestM, MMinusOne), Assign(DestA, RegM)]

  lemma {:induction false} PushFromDDecodes()
    ensures DecodeAll(PushFromD()) == Some(PushFromDCode)
  {
    StackLinesDecode();
    var lines := PushFromD();
    forall k | 0 <= k < |lines| ensures Decode(lines[k]) == Some(PushFromDCode[k]) {
    }
    DecodesPointwise(lines, PushFromDCode);
  }

  lemma {:induction false} PopToADecodes()
    ensures DecodeAll(PopToA()) == Some(PopToACode)
  {
    StackLinesDecode();
    var lines := PopToA();
    forall k | 0 <= k < |lines| ensures Decode(lines[k]) == Some(PopToACode[k]) {
    }
    DecodesPointwise(lines, PopToACode);
  }

  /** A symbol that starts with a letter is looked up, not read as a number. */
  lemma {:induction false} ResolveSymbol(symbols: map<string, Word>, s: string)
    requires s != "" && 'A' <= s[0] <= 'Z' && s in symbols
    ensures Resolve(symbols, s) == Some(symbols[s])
  {
    assert !IsDigitIn(s[0], 10);
  }

  lemma {:induction false} ResolveSP(symbols: map<string, Word>)
    requires Pointers(symbols)
    ensures Resolve(symbols, "SP") == Some(0)
  {
    ResolveSymbol(symbols, "SP");
  }

  /** `writePushFromD`: D goes to the word SP points at, and SP moves up. */
  lemma {:induction false} PushFromDRuns(code: seq<Instr>, symbols: map<string, Word>, m: Machine)
    requires code == PushFromDCode && Pointers(symbols) && Read(m.ram, 0) != 0
    ensures var sp := Read(m.ram, 0);
      Exec(code, symbols, m) == Some(Machine(m.pc + 5, 0, m.d, m.ram[sp := m.d][0 := Wrap(sp as int + 1)]))
  {
    ResolveSP(symbols);
    var sp := Read(m.ram, 0);
    var m1 := Machine(m.pc + 1, 0, m.d, m.ram);
    ExecCons(code, symbols, m, m1);
    var m2 := Machine(m.pc + 2, sp, m.d, m.ram);
    ExecCons(code[1..], symbols, m1, m2);
    var r1 := m.ram[sp := m.d];
    var m3 := Machine(m.pc + 3, sp, m.d, r1);
    ExecCons(code[2..], symbols, m2, m3);
    var m4 := Machine(m.pc + 4, 0, m.d, r1);
    ExecCons(code[3..], symbols, m3, m4);
    assert Read(r1, 0) == sp;
    var m5 := Machine(m.pc + 5, 0, m.d, r1[0 := Wrap(sp as int + 1)]);
    ExecCons(code[4..], symbols, m4, m5);
  }

  /** `writePopToA`: SP moves down and A points at the word popped. */
  lemma {:induction false} PopToARuns(code: seq<Instr>, symbols: map<string, Word>, m: Machine)
    requires code == PopToACode && Pointers(symbols)
    ensures var sp := Read(m.ram, 0);
      Exec(code, symbols, m) == Some(Machine(m.pc + 3, Wrap(sp as int - 1), m.d, m.ram[0 := Wrap(sp as int - 1)]))
  {
    ResolveSP(symbols);
    var sp := Read(m.ram, 0);
    var m1 := Machine(m.pc + 1, 0, m.d, m.ram);
    ExecCons(code, symbols, m, m1);
    var r1 := m.ram[0 := Wrap(sp as int - 1)];
    var m2 := Machine(m.pc + 2, 0, m.d, r1);
    ExecCons(code[1..], symbols, m1, m2);
    var m3 := Machine(m.pc + 3, Wrap(sp as int - 1), m.d, r1);
    ExecCons(code[2..], symbols, m2, m3);
  }

  // ---------------------------------------------------------------------
  // The arithmetic commands

  /** The computation of each formula of `writeCalc1Value` and
      `writeCalc2Values`. */
  function FormulaComp(command: string): Comp {
    if command == "neg" then NegM
    else if command == "not" then NotM
    else if command == "add" then DPlusM
    else if command == "sub" then MMinusD
    else if command == "and" then DAndM
    else DOrM
  }

  lemma {:induction false} UnaryFormulaDecodes(command: string)
    requires UnaryFormula(command).Some?
    ensures DecodeAll([UnaryFormula(command).value]) == Some([Assign(DestD, FormulaComp(command))])
  {
    FormulaLinesDecode();
    DecodeOne(UnaryFormula(command).value, Assign(DestD, FormulaComp(command)));
  }

  lemma {:induction false} BinaryFormulaDecodes(command: string)
    requires BinaryFormula(command).Some?
    ensures DecodeAll([BinaryFormula(command).value]) == Some([Assign(DestD, FormulaComp(command))])
  {
    FormulaLinesDecode();
    DecodeOne(BinaryFormula(command).value, Assign(DestD, FormulaComp(command)));
  }

  /** The instructions of `writeCalc1Value`. */
  function UnaryInstrs(command: string): seq<Instr> {
    PopToACode + [Assign(DestD, FormulaComp(command))] + PushFromDCode
  }

  /** The instructions of `writeCalc2Values`. */
  function BinaryInstrs(command: string): seq<Instr> {
    PopToACode + [Assign(DestD, RegM)] + PopToACode + [Assign(DestD, FormulaComp(command))] + PushFromDCode
  }

  /** The lines of `neg` and `not` read as their instructions. */
  lemma {:induction false} UnaryDecodes(command: string)
    requires UnaryFormula(command).Some?
    ensures DecodeAll(UnaryCode(UnaryFormula(command).value)) == Some(UnaryInstrs(command))
  {
    var f := UnaryFormula(command).value;
    UnaryFormulaDecodes(command);
    PopToADecodes();
    PushFromDDecodes();
    DecodeAllOfConcat(PopToA(), [f]);
    DecodeAllOfConcat(PopToA() + [f], PushFromD());
  }

  /** The lines of `add`, `sub`, `and` and `or` read as their instructions. */
  lemma {:induction false} BinaryDecodes(command: string)
    requires BinaryFormula(command).Some?
    ensures DecodeAll(BinaryCode(BinaryFormula(command).value)) == Some(BinaryInstrs(command))
  {
    var f := BinaryFormula(command).value;
    BinaryFormulaDecodes(command);
    StackLinesDecode();
    DecodeOne("D=M", Assign(DestD, RegM));
    PopToADecodes();
    PushFromDDecodes();
    DecodeAllOfConcat(PopToA(), ["D=M"]);
    DecodeAllOfConcat(PopToA() + ["D=M"], PopToA());
    DecodeAllOfConcat(PopToA() + ["D=M"] + PopToA(), [f]);
    DecodeAllOfConcat(PopToA() + ["D=M"] + PopToA() + [f], PushFromD());
  }

  /** The formula of a unary command computes its image of M. */
  lemma {:induction false} UnaryFormulaComputes(command: string, m: Machine)
    requires UnaryFormula(command).Some?
    ensures Value(FormulaComp(command), m) == UnaryOp(command, Read(m.ram, m.a))
  {
    if command == "neg" {
      assert FormulaComp(command) == NegM;
    } else {
      assert FormulaComp(command) == NotM;
    }
  }

  /** The formula of a binary command combines M (the lower operand) with D
      (the upper one) in the VM's order. */
  lemma {:induction false} BinaryFormulaComputes(command: string, m: Machine)
    requires BinaryFormula(command).Some?
    ensures Value(FormulaComp(command), m) == BinaryOp(command, Read(m.ram, m.a), m.d)
  {
    var x := Read(m.ram, m.a);
    if command == "add" {
      assert FormulaComp(command) == DPlusM;
    } else if command == "sub" {
      assert FormulaComp(command) == MMinusD;
    } else if command == "and" {
      assert FormulaComp(command) == DAndM;
      BitAndCommutes(m.d, x);
    } else {
      assert FormulaComp(command) == DOrM;
      BitAndCommutes(Not(m.d), Not(x));
    }
  }

  /** A formula that leaves `v` in D, followed by `writePushFromD`. */
  lemma {:induction false} FormulaThenPush(c: Comp, v: Word, symbols: map<string, Word>, m: Machine)
    requires Pointers(symbols) && Read(m.ram, 0) != 0 && Value(c, m) == v
    ensures var sp := Read(m.ram, 0);
      Exec([Assign(DestD, c)] + PushFromDCode, symbols, m)
        == Some(Machine(m.pc + 6, 0, v, m.ram[sp := v][0 := Wrap(sp as int + 1)]))
  {
    var m1 := Machine(m.pc + 1, m.a, v, m.ram);
    var code := [Assign(DestD, c)] + PushFromDCode;
    assert code[0] == Assign(DestD, c) && code[1..] == PushFromDCode;
    ExecCons(code, symbols, m, m1);
    PushFromDRuns(code[1..], symbols, m1);
  }

  /** The second half of a unary command: a formula that leaves `v` in D,
      and the push, which puts `v` where the operand was. */
  lemma {:induction false} UnaryTail(c: Comp, v: Word, symbols: map<string, Word>, m: Machine)
    requires Pointers(symbols) && 1 < Read(m.ram, 0)
    requires Value(c, Machine(m.pc + 3, Read(m.ram, 0) - 1, m.d, m.ram[0 := Read(m.ram, 0) - 1])) == v
    ensures var sp := Read(m.ram, 0);
      Exec([Assign(DestD, c)] + PushFromDCode, symbols, Machine(m.pc + 3, sp - 1, m.d, m.ram[0 := sp - 1]))
        == Some(Machine(m.pc + 9, 0, v, m.ram[sp - 1 := v]))
  {
    var sp := Read(m.ram, 0);
    var m1 := Machine(m.pc + 3, sp - 1, m.d, m.ram[0 := sp - 1]);
    FormulaThenPush(c, v, symbols, m1);
    WrapKeeps(sp as int);
    WriteTwice(m.ram, 0, sp - 1, sp, sp - 1, v);
    WriteSame(m.ram, sp - 1, v, 0);
  }

  /** `neg` and `not` replace the top of the stack by its image; SP stays. */
  lemma {:induction false} UnaryRuns(command: string, symbols: map<string, Word>, m: Machine)
    requires UnaryFormula(command).Some? && Pointers(symbols) && 1 < Read(m.ram, 0)
    ensures var sp := Read(m.ram, 0);
      var v := UnaryOp(command, Read(m.ram, sp - 1));
      Exec(UnaryInstrs(command), symbols, m) == Some(Machine(m.pc + 9, 0, v, m.ram[sp - 1 := v]))
  {
    var sp := Read(m.ram, 0);
    var tail := [Assign(DestD, FormulaComp(command))] + PushFromDCode;
    PopToARuns(PopToACode, symbols, m);
    WrapKeeps(sp as int - 1);
    var m1 := Machine(m.pc + 3, sp - 1, m.d, m.ram[0 := sp - 1]);
    UnaryFormulaComputes(command, m1);
    UnaryTail(FormulaComp(command), UnaryOp(command, Read(m.ram, sp - 1)), symbols, m);
    ExecThen(PopToACode, tail, symbols, m, Machine(m.pc + 3, sp - 1, m.d, m.ram[0 := sp - 1]));
    assert PopToACode + tail == PopToACode + [Assign(DestD, FormulaComp(command))] + PushFromDCode;
  }

  /** The first half of a binary command: the top word goes to D, and A
      points at the word below it. */
  lemma {:induction false} PopTwoRuns(symbols: map<string, Word>, m: Machine)
    requires Pointers(symbols) && 2 < Read(m.ram, 0)
    ensures var sp := Read(m.ram, 0);
      Exec(PopToACode + [Assign(DestD, RegM)] + PopToACode, symbols, m)
        == Some(Machine(m.pc + 7, sp - 2, Read(m.ram, sp - 1), m.ram[0 := sp - 2]))
  {
    var sp := Read(m.ram, 0);
    var m1 := Machine(m.pc + 3, sp - 1, m.d, m.ram[0 := sp - 1]);
    var m2 := Machine(m.pc + 4, sp - 1, Read(m.ram, sp - 1), m1.ram);
    var m3 := Machine(m.pc + 7, sp - 2, Read(m.ram, sp - 1), m.ram[0 := sp - 2]);
    assert Exec(PopToACode, symbols, m) == Some(m1) by {
      PopToARuns(PopToACode, symbols, m);
      WrapKeeps(sp as int - 1);
    }
    assert Exec([Assign(DestD, RegM)], symbols, m1) == Some(m2) by {
      AssignDStep(RegM, symbols, m1);
    }
    assert Exec(PopToACode, symbols, m2) == Some(m3) by {
      PopToARuns(PopToACode, symbols, m2);
      WrapKeeps(sp as int - 2);
      assert m1.ram[0 := sp - 2] == m.ram[0 := sp - 2];
    }
    Exec3(PopToACode, [Assign(DestD, RegM)], PopToACode, symbols, m, m1, m2, m3);
  }

  /** The second half of a binary command: a formula that leaves `v` in
      D, and the push, which puts `v` where the lower operand was. */
  lemma {:induction false} BinaryTail(c: Comp, v: Word, symbols: map<string, Word>, m: Machine)
    requires Pointers(symbols) && 2 < Read(m.ram, 0)
    requires Value(c, Machine(m.pc + 7, Read(m.ram, 0) - 2, Read(m.ram, Read(m.ram, 0) - 1), m.ram[0 := Read(m.ram, 0) - 2])) == v
    ensures var sp := Read(m.ram, 0);
      Exec([Assign(DestD, c)] + PushFromDCode, symbols, Machine(m.pc + 7, sp - 2, Read(m.ram, sp - 1), m.ram[0 := sp - 2]))
        == Some(Machine(m.pc + 13, 0, v, m.ram[sp - 2 := v][0 := sp - 1]))
  {
    var sp := Read(m.ram, 0);
    var m1 := Machine(m.pc + 7, sp - 2, Read(m.ram, sp - 1), m.ram[0 := sp - 2]);
    FormulaThenPush(c, v, symbols, m1);
    WrapKeeps(sp as int - 1);
    WriteTwice(m.ram, 0, sp - 2, sp - 1, sp - 2, v);
  }

  /** `add`, `sub`, `and` and `or` replace the two top words of the stack
      by their combination; SP moves down by one. */
  lemma {:induction false} BinaryRuns(command: string, symbols: map<string, Word>, m: Machine)
    requires BinaryFormula(command).Some? && Pointers(symbols) && 2 < Read(m.ram, 0)
    ensures var sp := Read(m.ram, 0);
      var v := BinaryOp(command, Read(m.ram, sp - 2), Read(m.ram, sp - 1));
      Exec(BinaryInstrs(command), symbols, m) == Some(Machine(m.pc + 13, 0, v, m.ram[sp - 2 := v][0 := sp - 1]))
  {
    var sp := Read(m.ram, 0);
    var pops := PopToACode + [Assign(DestD, RegM)] + PopToACode;
    var tail := [Assign(DestD, FormulaComp(command))] + PushFromDCode;
    PopTwoRuns(symbols, m);
    var m1 := Machine(m.pc + 7, sp - 2, Read(m.ram, sp - 1), m.ram[0 := sp - 2]);
    BinaryFormulaComputes(command, m1);
    BinaryTail(FormulaComp(command), BinaryOp(command, Read(m.ram, sp - 2), Read(m.ram, sp - 1)), symbols, m);
    ExecThen(pops, tail, symbols, m, Machine(m.pc + 7, sp - 2, Read(m.ram, sp - 1), m.ram[0 := sp - 2]));
    assert pops + tail == pops + [Assign(DestD, FormulaComp(command))] + PushFromDCode;
  }

  // ---------------------------------------------------------------------
  // The comparisons

  /** The jump of `eq`, `gt` and `lt`. */
  function JumpCond(command: string): Cond {
    if command == "eq" then JEQ else if command == "gt" then JGT else JLT
  }

  /** The two pops, the difference, and the address of the true branch. */
  function CompareHead(n: nat): seq<Instr> {
    PopToACode + [Assign(DestD, RegM)] + PopToACode + [Assign(DestD, MMinusD), Load(TrueLabel(n))]
  }

  /** The false branch: D = 0, then on to the end. */
  function SetFalse(n: nat): seq<Instr> {
    [Assign(DestD, Zero), Load(NextLabel(n))]
  }

  /** The true branch, from its label: D = -1. */
  function SetTrue(n: nat): seq<Instr> {
    [Define(TrueLabel(n)), Assign(DestD, MinusOne)]
  }

  /** The end label and the push of D. */
  function NextPush(n: nat): seq<Instr> {
    [Define(NextLabel(n))] + PushFromDCode
  }

  /** The instructions of `writeCompare` with label number `n`. */
  function CompareInstrs(command: string, n: nat): seq<Instr> {
    CompareHead(n) + [Jump(RegD, JumpCond(command))] + SetFalse(n) + [Jump(Zero, JMP)] + SetTrue(n) + NextPush(n)
  }

  /** The conditional jump of `eq`, `gt` and `lt`. */
  lemma {:induction false} CompareJumpDecodes(command: string)
    requires CompareJump(command).Some?
    ensures Decode("D;" + CompareJump(command).value) == Some(Jump(RegD, JumpCond(command)))
  {
    CompareLinesDecode();
    if command == "eq" {
      assert "D;" + CompareJump(command).value == "D;JEQ";
    } else if command == "gt" {
      assert "D;" + CompareJump(command).value == "D;JGT";
    } else {
      assert "D;" + CompareJump(command).value == "D;JLT";
    }
  }

  lemma {:induction false} DecodeThree(lines: seq<string>, code: seq<Instr>)
    requires |lines| == 3 && |code| == 3
    requires Decode(lines[0]) == Some(code[0]) && Decode(lines[1]) == Some(code[1]) && Decode(lines[2]) == Some(code[2])
    ensures DecodeAll(lines) == Some(code)
  {
    forall k | 0 <= k < |lines| ensures Decode(lines[k]) == Some(code[k]) {
    }
    DecodesPointwise(lines, code);
  }

  /** The difference and the conditional jump to the true branch. */
  lemma {:induction false} CompareTestDecodes(command: string, n: nat)
    requires CompareJump(command).Some?
    ensures DecodeAll(["D=M-D", "@" + TrueLabel(n), "D;" + CompareJump(command).value])
      == Some([Assign(DestD, MMinusD), Load(TrueLabel(n)), Jump(RegD, JumpCond(command))])
  {
    FormulaLinesDecode();
    CompareJumpDecodes(command);
    LoadDecodes(TrueLabel(n));
    DecodeThree(["D=M-D", "@" + TrueLabel(n), "D;" + CompareJump(command).value],
      [Assign(DestD, MMinusD), Load(TrueLabel(n)), Jump(RegD, JumpCond(command))]);
  }

  /** The false branch, up to its jump to the end. */
  lemma {:induction false} CompareFalseDecodes(n: nat)
    ensures DecodeAll(["D=0", "@" + NextLabel(n), "0;JMP"])
      == Some([Assign(DestD, Zero), Load(NextLabel(n)), Jump(Zero, JMP)])
  {
    CompareLinesDecode();
    LoadDecodes(NextLabel(n));
    DecodeThree(["D=0", "@" + NextLabel(n), "0;JMP"], [Assign(DestD, Zero), Load(NextLabel(n)), Jump(Zero, JMP)]);
  }

  /** The true branch and the end label. */
  lemma {:induction false} CompareTrueDecodes(n: nat)
    ensures DecodeAll([Definition(TrueLabel(n)), "D=-1", Definition(NextLabel(n))])
      == Some([Define(TrueLabel(n)), Assign(DestD, MinusOne), Define(NextLabel(n))])
  {
    CompareLinesDecode();
    DefineDecodes(TrueLabel(n));
    DefineDecodes(NextLabel(n));
    DecodeThree([Definition(TrueLabel(n)), "D=-1", Definition(NextLabel(n))],
      [Define(TrueLabel(n)), Assign(DestD, MinusOne), Define(NextLabel(n))]);
  }

  /** The nine lines in the middle of `writeCompare`. */
  lemma {:induction false} CompareBodyDecodes(command: string, n: nat)
    requires CompareJump(command).Some?
    ensures DecodeAll(CompareBody(CompareJump(command).value, n)) == Some(
      [Assign(DestD, MMinusD), Load(TrueLabel(n)), Jump(RegD, JumpCond(command)),
       Assign(DestD, Zero), Load(NextLabel(n)), Jump(Zero, JMP),
       Define(TrueLabel(n)), Assign(DestD, MinusOne), Define(NextLabel(n))])
  {
    var x := ["D=M-D", "@" + TrueLabel(n), "D;" + CompareJump(command).value];
    var y := ["D=0", "@" + NextLabel(n), "0;JMP"];
    var z := [Definition(TrueLabel(n)), "D=-1", Definition(NextLabel(n))];
    assert CompareBody(CompareJump(command).value, n) == x + y + z;
    CompareTestDecodes(command, n);
    CompareFalseDecodes(n);
    CompareTrueDecodes(n);
    DecodeAllOfConcat(x, y);
    DecodeAllOfConcat(x + y, z);
    assert [Assign(DestD, MMinusD), Load(TrueLabel(n)), Jump(RegD, JumpCond(command))]
      + [Assign(DestD, Zero), Load(NextLabel(n)), Jump(Zero, JMP)]
      + [Define(TrueLabel(n)), Assign(DestD, MinusOne), Define(NextLabel(n))]
      == [Assign(DestD, MMinusD), Load(TrueLabel(n)), Jump(RegD, JumpCond(command)),
       Assign(DestD, Zero), Load(NextLabel(n)), Jump(Zero, JMP),
       Define(TrueLabel(n)), Assign(DestD, MinusOne), Define(NextLabel(n))];
  }

  /** The two pops that start a comparison. */
  lemma {:induction false} PopTwoDecodes()
    ensures DecodeAll(PopToA() + ["D=M"] + PopToA()) == Some(PopToACode + [Assign(DestD, RegM)] + PopToACode)
  {
    StackLinesDecode();
    DecodeOne("D=M", Assign(DestD, RegM));
    PopToADecodes();
    DecodeAllOfConcat(PopToA(), ["D=M"]);
    DecodeAllOfConcat(PopToA() + ["D=M"], PopToA());
  }

  /** The instructions of a comparison, grouped as its lines are. */
  lemma {:induction false} CompareRegroup(command: string, n: nat)
    ensures PopToACode + [Assign(DestD, RegM)] + PopToACode
      + [Assign(DestD, MMinusD), Load(TrueLabel(n)), Jump(RegD, JumpCond(command)),
         Assign(DestD, Zero), Load(NextLabel(n)), Jump(Zero, JMP),
         Define(TrueLabel(n)), Assign(DestD, MinusOne), Define(NextLabel(n))]
      + PushFromDCode == CompareInstrs(command, n)
  {
    var body := [Assign(DestD, MMinusD), Load(TrueLabel(n)), Jump(RegD, JumpCond(command)),
       Assign(DestD, Zero), Load(NextLabel(n)), Jump(Zero, JMP),
       Define(TrueLabel(n)), Assign(DestD, MinusOne), Define(NextLabel(n))];
    assert body == body[..2] + [body[2]] + SetFalse(n) + [body[5]] + SetTrue(n) + [body[8]];
  }

  /** The lines of `eq`, `gt` and `lt` read as their instructions. */
  lemma {:induction false} CompareDecodes(command: string, n: nat)
    requires CompareJump(command).Some?
    ensures DecodeAll(CompareCode(CompareJump(command).value, n)) == Some(CompareInstrs(command, n))
  {
    var pops := PopToA() + ["D=M"] + PopToA();
    var lines := CompareBody(CompareJump(command).value, n);
    var body := [Assign(DestD, MMinusD), Load(TrueLabel(n)), Jump(RegD, JumpCond(command)),
       Assign(DestD, Zero), Load(NextLabel(n)), Jump(Zero, JMP),
       Define(TrueLabel(n)), Assign(DestD, MinusOne), Define(NextLabel(n))];
    CompareBodyDecodes(command, n);
    PopTwoDecodes();
    PushFromDDecodes();
    DecodeAllOfConcat(pops, lines);
    DecodeAllOfConcat(pops + lines, PushFromD());
    CompareRegroup(command, n);
  }

  /** The pieces of a comparison placed in the program. */
  lemma {:induction false} ComparePlaced(command: string, n: nat, prog: seq<Instr>, p: nat)
    requires Placed(prog, p, CompareInstrs(command, n))
    ensures Placed(prog, p, CompareHead(n)) && Placed(prog, p + 10, SetFalse(n))
    ensures Placed(prog, p + 13, SetTrue(n)) && Placed(prog, p + 15, NextPush(n))
    ensures p + 12 < |prog| && prog[p + 9] == Jump(RegD, JumpCond(command)) && prog[p + 12] == Jump(Zero, JMP)
  {
    var a := CompareHead(n) + [Jump(RegD, JumpCond(command))];
    var b := a + SetFalse(n);
    var c := b + [Jump(Zero, JMP)];
    var d := c + SetTrue(n);
    PlacedConcat(prog, p, d, NextPush(n));
    PlacedConcat(prog, p, c, SetTrue(n));
    PlacedConcat(prog, p, b, [Jump(Zero, JMP)]);
    PlacedConcat(prog, p, a, SetFalse(n));
    PlacedConcat(prog, p, CompareHead(n), [Jump(RegD, JumpCond(command))]);
    assert prog[p + 9..p + 10][0] == prog[p + 9];
    assert prog[p + 12..p + 13][0] == prog[p + 12];
  }

  lemma {:induction false} NoJumpsInPieces(n: nat)
    ensures NoJumps(CompareHead(n)) && NoJumps(SetFalse(n)) && NoJumps(SetTrue(n)) && NoJumps(NextPush(n))
  {
    NoJumpsConcat([Define(NextLabel(n))], PushFromDCode);
  }

  /** The head of a comparison leaves the difference of the two top words
      in D and the address of the true branch in A. */
  lemma {:induction false} CompareHeadRuns(n: nat, symbols: map<string, Word>, m: Machine)
    requires Pointers(symbols) && 2 < Read(m.ram, 0) && TrueLabel(n) in symbols
    ensures var sp := Read(m.ram, 0);
      Exec(CompareHead(n), symbols, m)
        == Some(Machine(m.pc + 9, symbols[TrueLabel(n)], Wrap(Read(m.ram, sp - 2) - Read(m.ram, sp - 1)), m.ram[0 := sp - 2]))
  {
    var sp := Read(m.ram, 0);
    var pops := PopToACode + [Assign(DestD, RegM)] + PopToACode;
    var test := [Assign(DestD, MMinusD), Load(TrueLabel(n))];
    var m1 := Machine(m.pc + 7, sp - 2, Read(m.ram, sp - 1), m.ram[0 := sp - 2]);
    var m2 := Machine(m.pc + 8, sp - 2, Wrap(Read(m.ram, sp - 2) - Read(m.ram, sp - 1)), m1.ram);
    var m3 := Machine(m.pc + 9, symbols[TrueLabel(n)], m2.d, m1.ram);
    PopTwoRuns(symbols, m);
    assert Read(m1.ram, m1.a) == Read(m.ram, sp - 2);
    ExecCons(test, symbols, m1, m2);
    assert TrueLabel(n) == "RETURN_TRUE_" + NatToString(n);
    ResolveSymbol(symbols, TrueLabel(n));
    ExecCons(test[1..], symbols, m2, m3);
    ExecThen(pops, test, symbols, m, m1);
  }

  lemma {:induction false} SetFalseRuns(n: nat, symbols: map<string, Word>, m: Machine)
    requires NextLabel(n) in symbols
    ensures Exec(SetFalse(n), symbols, m) == Some(Machine(m.pc + 2, symbols[NextLabel(n)], 0, m.ram))
  {
    var m1 := Machine(m.pc + 1, m.a, 0, m.ram);
    ExecCons(SetFalse(n), symbols, m, m1);
    assert NextLabel(n) == "NEXT_" + NatToString(n);
    ResolveSymbol(symbols, NextLabel(n));
    ExecCons(SetFalse(n)[1..], symbols, m1, Machine(m.pc + 2, symbols[NextLabel(n)], 0, m.ram));
  }

  lemma {:induction false} SetTrueRuns(n: nat, symbols: map<string, Word>, m: Machine)
    ensures Exec(SetTrue(n), symbols, m) == Some(Machine(m.pc + 2, m.a, 0xFFFF, m.ram))
  {
    var m1 := Machine(m.pc + 1, m.a, m.d, m.ram);
    ExecCons(SetTrue(n), symbols, m, m1);
    ExecCons(SetTrue(n)[1..], symbols, m1, Machine(m.pc + 2, m.a, 0xFFFF, m.ram));
  }

  lemma {:induction false} NextPushRuns(n: nat, symbols: map<string, Word>, m: Machine)
    requires Pointers(symbols) && Read(m.ram, 0) != 0
    ensures var sp := Read(m.ram, 0);
      Exec(NextPush(n), symbols, m) == Some(Machine(m.pc + 6, 0, m.d, m.ram[sp := m.d][0 := Wrap(sp as int + 1)]))
  {
    var m1 := Machine(m.pc + 1, m.a, m.d, m.ram);
    var code := NextPush(n);
    assert code[1..] == PushFromDCode;
    ExecCons(code, symbols, m, m1);
    PushFromDRuns(code[1..], symbols, m1);
  }

  /** From the true label on: D = -1, then the push. */
  lemma {:induction false} TrueBranchRuns(n: nat, prog: seq<Instr>, symbols: map<string, Word>, m: Machine)
    requires Placed(prog, m.pc, SetTrue(n)) && Placed(prog, m.pc + 2, NextPush(n))
    requires Pointers(symbols) && Read(m.ram, 0) != 0
    ensures var sp := Read(m.ram, 0);
      Run(prog, symbols, m, 8) == Some(Machine(m.pc + 8, 0, 0xFFFF, m.ram[sp := 0xFFFF][0 := Wrap(sp as int + 1)]))
  {
    var sp := Read(m.ram, 0);
    var m1 := Machine(m.pc + 2, m.a, 0xFFFF, m.ram);
    var m2 := Machine(m.pc + 8, 0, 0xFFFF, m.ram[sp := 0xFFFF][0 := Wrap(sp as int + 1)]);
    NoJumpsInPieces(n);
    SetTrueRuns(n, symbols, m);
    NextPushRuns(n, symbols, m1);
    RunTwoPlaced(prog, symbols, m, SetTrue(n), NextPush(n), m1, m2);
  }

  /** D = 0 and the jump to the end label. */
  lemma {:induction false} FalseJumpRuns(n: nat, prog: seq<Instr>, symbols: map<string, Word>, m: Machine)
    requires Placed(prog, m.pc, SetFalse(n)) && m.pc + 2 < |prog| && prog[m.pc + 2] == Jump(Zero, JMP)
    requires NextLabel(n) in symbols
    ensures Run(prog, symbols, m, 3) == Some(Machine(symbols[NextLabel(n)], symbols[NextLabel(n)], 0, m.ram))
  {
    var m1 := Machine(m.pc + 2, symbols[NextLabel(n)], 0, m.ram);
    NoJumpsInPieces(n);
    SetFalseRuns(n, symbols, m);
    RunPlaced(prog, symbols, m, SetFalse(n), m1);
    JumpStep(prog, symbols, m1, Zero, JMP);
    RunThen(prog, symbols, m, 2, 1, m1);
  }

  /** From the instruction after the conditional jump: D = 0, the jump to
      the end label, then the push. */
  lemma {:induction false} FalseBranchRuns(n: nat, prog: seq<Instr>, symbols: map<string, Word>, m: Machine)
    requires Placed(prog, m.pc, SetFalse(n)) && m.pc + 2 < |prog| && prog[m.pc + 2] == Jump(Zero, JMP)
    requires NextLabel(n) in symbols && symbols[NextLabel(n)] == m.pc + 5 && Placed(prog, m.pc + 5, NextPush(n))
    requires Pointers(symbols) && Read(m.ram, 0) != 0
    ensures var sp := Read(m.ram, 0);
      Run(prog, symbols, m, 9) == Some(Machine(m.pc + 11, 0, 0, m.ram[sp := 0][0 := Wrap(sp as int + 1)]))
  {
    var sp := Read(m.ram, 0);
    var m1 := Machine(m.pc + 5, m.pc + 5, 0, m.ram);
    var m2 := Machine(m.pc + 11, 0, 0, m.ram[sp := 0][0 := Wrap(sp as int + 1)]);
    FalseJumpRuns(n, prog, symbols, m);
    NoJumpsInPieces(n);
    NextPushRuns(n, symbols, m1);
    RunPlaced(prog, symbols, m1, NextPush(n), m2);
    RunThen(prog, symbols, m, 3, 6, m1);
  }

  /** The head of a comparison and its conditional jump. */
  lemma {:induction false} CompareJumpRuns(command: string, n: nat, prog: seq<Instr>, symbols: map<string, Word>, m: Machine)
    requires Placed(prog, m.pc, CompareHead(n)) && m.pc + 9 < |prog| && prog[m.pc + 9] == Jump(RegD, JumpCond(command))
    requires TrueLabel(n) in symbols && symbols[TrueLabel(n)] == m.pc + 13
    requires Pointers(symbols) && 2 < Read(m.ram, 0)
    ensures var sp := Read(m.ram, 0);
      var diff := Wrap(Read(m.ram, sp - 2) - Read(m.ram, sp - 1));
      Run(prog, symbols, m, 10)
        == Some(Machine(if Holds(JumpCond(command), diff) then m.pc + 13 else m.pc + 10, m.pc + 13, diff, m.ram[0 := sp - 2]))
  {
    var sp := Read(m.ram, 0);
    var diff := Wrap(Read(m.ram, sp - 2) - Read(m.ram, sp - 1));
    var m1 := Machine(m.pc + 9, m.pc + 13, diff, m.ram[0 := sp - 2]);
    NoJumpsInPieces(n);
    CompareHeadRuns(n, symbols, m);
    RunPlaced(prog, symbols, m, CompareHead(n), m1);
    JumpStep(prog, symbols, m1, RegD, JumpCond(command));
    RunThen(prog, symbols, m, 9, 1, m1);
  }

  lemma {:induction false} CompareJumpTaken(command: string, n: nat, prog: seq<Instr>, symbols: map<string, Word>, m: Machine)
    requires Placed(prog, m.pc, CompareHead(n)) && m.pc + 9 < |prog| && prog[m.pc + 9] == Jump(RegD, JumpCond(command))
    requires TrueLabel(n) in symbols && symbols[TrueLabel(n)] == m.pc + 13
    requires Pointers(symbols) && 2 < Read(m.ram, 0)
    requires Holds(JumpCond(command), Wrap(Read(m.ram, Read(m.ram, 0) - 2) - Read(m.ram, Read(m.ram, 0) - 1)))
    ensures var sp := Read(m.ram, 0);
      Run(prog, symbols, m, 10) == Some(Machine(m.pc + 13, m.pc + 13, Wrap(Read(m.ram, sp - 2) - Read(m.ram, sp - 1)), m.ram[0 := sp - 2]))
  {
    CompareJumpRuns(command, n, prog, symbols, m);
  }

  lemma {:induction false} CompareJumpNotTaken(command: string, n: nat, prog: seq<Instr>, symbols: map<string, Word>, m: Machine)
    requires Placed(prog, m.pc, CompareHead(n)) && m.pc + 9 < |prog| && prog[m.pc + 9] == Jump(RegD, JumpCond(command))
    requires TrueLabel(n) in symbols && symbols[TrueLabel(n)] == m.pc + 13
    requires Pointers(symbols) && 2 < Read(m.ram, 0)
    requires !Holds(JumpCond(command), Wrap(Read(m.ram, Read(m.ram, 0) - 2) - Read(m.ram, Read(m.ram, 0) - 1)))
    ensures var sp := Read(m.ram, 0);
      Run(prog, symbols, m, 10) == Some(Machine(m.pc + 10, m.pc + 13, Wrap(Read(m.ram, sp - 2) - Read(m.ram, sp - 1)), m.ram[0 := sp - 2]))
  {
    CompareJumpRuns(command, n, prog, symbols, m);
  }

  /** The run of a comparison up to its jump, and on from there to the
      push of `t`. */
  lemma {:induction false} CompareFinish(prog: seq<Instr>, symbols: map<string, Word>, m: Machine, m1: Machine, j: nat, k: nat, t: Word)
    requires 2 < Read(m.ram, 0)
    requires Run(prog, symbols, m, j) == Some(m1) && m1.ram == m.ram[0 := Read(m.ram, 0) - 2]
    requires Run(prog, symbols, m1, k)
      == Some(Machine(m.pc + 21, 0, t, m1.ram[Read(m1.ram, 0) := t][0 := Wrap(Read(m1.ram, 0) as int + 1)]))
    ensures var sp := Read(m.ram, 0);
      Run(prog, symbols, m, j + k) == Some(Machine(m.pc + 21, 0, t, m.ram[sp - 2 := t][0 := sp - 1]))
  {
    var sp := Read(m.ram, 0);
    RunThen(prog, symbols, m, j, k, m1);
    assert Read(m1.ram, 0) == sp - 2;
    WrapKeeps(sp as int - 1);
    WriteTwice(m.ram, 0, sp - 2, sp - 1, sp - 2, t);
  }

  /** A comparison whose jump is taken, through the machine `m1` at the
      true label. */
  lemma {:induction false} CompareTakenRuns(command: string, n: nat, prog: seq<Instr>, symbols: map<string, Word>, m: Machine, m1: Machine)
    requires Placed(prog, m.pc, CompareHead(n)) && m.pc + 9 < |prog| && prog[m.pc + 9] == Jump(RegD, JumpCond(command))
    requires Placed(prog, m.pc + 13, SetTrue(n)) && Placed(prog, m.pc + 15, NextPush(n))
    requires TrueLabel(n) in symbols && symbols[TrueLabel(n)] == m.pc + 13
    requires Pointers(symbols) && 2 < Read(m.ram, 0)
    requires Holds(JumpCond(command), Wrap(Read(m.ram, Read(m.ram, 0) - 2) - Read(m.ram, Read(m.ram, 0) - 1)))
    requires m1.pc == m.pc + 13 && m1.a == m.pc + 13 && m1.ram == m.ram[0 := Read(m.ram, 0) - 2]
    requires m1.d == Wrap(Read(m.ram, Read(m.ram, 0) - 2) - Read(m.ram, Read(m.ram, 0) - 1))
    ensures var sp := Read(m.ram, 0);
      Run(prog, symbols, m, 18) == Some(Machine(m.pc + 21, 0, 0xFFFF, m.ram[sp - 2 := 0xFFFF][0 := sp - 1]))
  {
    CompareJumpTaken(command, n, prog, symbols, m);
    TrueBranchRuns(n, prog, symbols, m1);
    CompareFinish(prog, symbols, m, m1, 10, 8, 0xFFFF);
  }

  /** A comparison whose jump is not taken, through the machine `m1` after
      the jump. */
  lemma {:induction false} CompareNotTakenRuns(command: string, n: nat, prog: seq<Instr>, symbols: map<string, Word>, m: Machine, m1: Machine)
    requires Placed(prog, m.pc, CompareHead(n)) && m.pc + 9 < |prog| && prog[m.pc + 9] == Jump(RegD, JumpCond(command))
    requires Placed(prog, m.pc + 10, SetFalse(n)) && m.pc + 12 < |prog| && prog[m.pc + 12] == Jump(Zero, JMP)
    requires Placed(prog, m.pc + 15, NextPush(n))
    requires TrueLabel(n) in symbols && symbols[TrueLabel(n)] == m.pc + 13
    requires NextLabel(n) in symbols && symbols[NextLabel(n)] == m.pc + 15
    requires Pointers(symbols) && 2 < Read(m.ram, 0)
    requires !Holds(JumpCond(command), Wrap(Read(m.ram, Read(m.ram, 0) - 2) - Read(m.ram, Read(m.ram, 0) - 1)))
    requires m1.pc == m.pc + 10 && m1.a == m.pc + 13 && m1.ram == m.ram[0 := Read(m.ram, 0) - 2]
    requires m1.d == Wrap(Read(m.ram, Read(m.ram, 0) - 2) - Read(m.ram, Read(m.ram, 0) - 1))
    ensures var sp := Read(m.ram, 0);
      Run(prog, symbols, m, 19) == Some(Machine(m.pc + 21, 0, 0, m.ram[sp - 2 := 0][0 := sp - 1]))
  {
    CompareJumpNotTaken(command, n, prog, symbols, m);
    FalseBranchRuns(n, prog, symbols, m1);
    CompareFinish(prog, symbols, m, m1, 10, 9, 0);
  }

  /** `eq`, `gt` and `lt`, placed in a program whose two labels are
      resolved to their places: after 18 steps (a taken jump) or 19, the
      two top words are replaced by `-1` when the jump condition holds of
      their wrapped difference, and by `0` otherwise. */
  lemma {:induction false} CompareRuns(command: string, n: nat, prog: seq<Instr>, symbols: map<string, Word>, m: Machine)
    requires Placed(prog, m.pc, CompareInstrs(command, n))
    requires TrueLabel(n) in symbols && symbols[TrueLabel(n)] == m.pc + 13
    requires NextLabel(n) in symbols && symbols[NextLabel(n)] == m.pc + 15
    requires Pointers(symbols) && 2 < Read(m.ram, 0)
    ensures var sp := Read(m.ram, 0);
      var b := Holds(JumpCond(command), Wrap(Read(m.ram, sp - 2) - Read(m.ram, sp - 1)));
      Run(prog, symbols, m, if b then 18 else 19)
        == Some(Machine(m.pc + 21, 0, Truth(b), m.ram[sp - 2 := Truth(b)][0 := sp - 1]))
  {
    var sp := Read(m.ram, 0);
    var diff := Wrap(Read(m.ram, sp - 2) - Read(m.ram, sp - 1));
    ComparePlaced(command, n, prog, m.pc);
    if Holds(JumpCond(command), diff) {
      CompareTakenRuns(command, n, prog, symbols, m, Machine(m.pc + 13, m.pc + 13, diff, m.ram[0 := sp - 2]));
    } else {
      CompareNotTakenRuns(command, n, prog, symbols, m, Machine(m.pc + 10, m.pc + 13, diff, m.ram[0 := sp - 2]));
    }
  }

  /** A difference within the signed range reads back from its wrapped word. */
  lemma {:induction false} SignedWrap(z: int)
    requires -0x8000 <= z < 0x8000
    ensures Signed(Wrap(z)) == z
  {
    if z < 0 {
      assert Wrap(z) == z + 0x10000;
    } else {
      assert Wrap(z) == z;
    }
  }

  /** Subtracting words and subtracting their signed readings wrap alike. */
  lemma {:induction false} WrapDifference(x: Word, y: Word)
    ensures Wrap(x - y) == Wrap(Signed(x) - Signed(y))
  {
    var k := (if x < 0x8000 then 0 else 1) - (if y < 0x8000 then 0 else 1);
    assert Signed(x) - Signed(y) == (x - y) - 0x10000 * k;
    if k == 1 {
      assert Wrap(x - y - 0x10000) == Wrap(x - y);
    } else if k == -1 {
      assert Wrap(x - y + 0x10000) == Wrap(x - y);
    }
  }

  /** The jump of a comparison answers the VM's comparison: `eq` always,
      `gt` and `lt` whenever the signed difference of the two words does
      not overflow 16 bits. */
  lemma {:induction false} CompareAgrees(command: string, x: Word, y: Word)
    requires CompareJump(command).Some?
    requires command != "eq" ==> -0x8000 <= Signed(x) - Signed(y) < 0x8000
    ensures Holds(JumpCond(command), Wrap(x - y)) <==> CompareOp(command, x, y)
  {
    if command == "eq" {
      if x - y < 0 {
        assert Wrap(x - y) == x - y + 0x10000;
      } else {
        assert Wrap(x - y) == x - y;
      }
    } else {
      WrapDifference(x, y);
      SignedWrap(Signed(x) - Signed(y));
    }
  }

  /** `gt` of 32767 and -32768: the difference wraps to -1, so the jump
      is not taken although the first is the greater. */
  lemma {:induction false} GreaterOverflows()
    ensures CompareOp("gt", 0x7FFF, 0x8000)
    ensures !Holds(JumpCond("gt"), Wrap(0x7FFF - 0x8000))
  {
    assert Wrap(0x7FFF - 0x8000) == 0xFFFF;
  }

  /** `eq`, `gt` and `lt` leave the VM's truth value of the comparison of
      the two top words (the lower one first), as long as a `gt` or `lt`
      does not overflow. */
  lemma {:induction false} CompareComputes(command: string, n: nat, prog: seq<Instr>, symbols: map<string, Word>, m: Machine)
    requires CompareJump(command).Some?
    requires Placed(prog, m.pc, CompareInstrs(command, n))
    requires TrueLabel(n) in symbols && symbols[TrueLabel(n)] == m.pc + 13
    requires NextLabel(n) in symbols && symbols[NextLabel(n)] == m.pc + 15
    requires Pointers(symbols) && 2 < Read(m.ram, 0)
    requires command != "eq" ==>
      -0x8000 <= Signed(Read(m.ram, Read(m.ram, 0) - 2)) - Signed(Read(m.ram, Read(m.ram, 0) - 1)) < 0x8000
    ensures var sp := Read(m.ram, 0);
      var b := CompareOp(command, Read(m.ram, sp - 2), Read(m.ram, sp - 1));
      Run(prog, symbols, m, if b then 18 else 19)
        == Some(Machine(m.pc + 21, 0, Truth(b), m.ram[sp - 2 := Truth(b)][0 := sp - 1]))
  {
    var sp := Read(m.ram, 0);
    CompareAgrees(command, Read(m.ram, sp - 2), Read(m.ram, sp - 1));
    CompareRuns(command, n, prog, symbols, m);
  }
}
