/** What the `push` and `pop` code of the project 08 VM translator
    (projects/08/VMTranslater/codeWriter.js) does when HackMachine runs it:
    the word of the named segment goes to the top of the stack, or the top
    of the stack goes to that word. */
module VmSegmentSemantics {
  import opened Wrappers
  import opened Text
  import opened HackMachine
  import opened VmCodeSemantics
  import opened VmCodeWriter7
  import opened VmCodeWriter8

  // ---------------------------------------------------------------------
  // Where a segment lives

  /** The pointer word of `local`, `argument`, `this` and `that`: the
      addresses of LCL, ARG, THIS and THAT. */
  function PointerAddress(segment: Option<string>): Word {
    if segment == Some("local") then 1
    else if segment == Some("argument") then 2
    else if segment == Some("this") then 3
    else 4
  }

  /** The first word of `pointer` and `temp`. */
  function FixedAddress(segment: Option<string>): Word {
    if segment == Some("pointer") then 3 else 5
  }

  // ---------------------------------------------------------------------
  // The instructions

  function IncrementInstrs(k: nat): seq<Instr> {
    seq(k, _ => Assign(DestA, APlusOne))
  }

  function PushConstantInstrs(text: string): seq<Instr> {
    [Load(text), Assign(DestD, RegA)] + PushFromDCode
  }

  function PushReferencedInstrs(base: string, k: nat): seq<Instr> {
    [Load(base), Assign(DestA, RegM)] + IncrementInstrs(k) + ([Assign(DestD, RegM)] + PushFromDCode)
  }

  function PopReferencedInstrs(base: string, k: nat): seq<Instr> {
    PopToACode + [Assign(DestD, RegM), Load(base), Assign(DestA, RegM)] + IncrementInstrs(k) + [Assign(DestM, RegD)]
  }

  function PushFixedInstrs(base: string, k: nat): seq<Instr> {
    [Load(base)] + IncrementInstrs(k) + ([Assign(DestD, RegM)] + PushFromDCode)
  }

  function PopFixedInstrs(base: string, k: nat): seq<Instr> {
    PopToACode + [Assign(DestD, RegM), Load(base)] + IncrementInstrs(k) + [Assign(DestM, RegD)]
  }

  function PushStaticInstrs(symbol: string): seq<Instr> {
    [Load(symbol)] + ([Assign(DestD, RegM)] + PushFromDCode)
  }

  function PopStaticInstrs(symbol: string): seq<Instr> {
    PopToACode + [Assign(DestD, RegM), Load(symbol), Assign(DestM, RegD)]
  }

  // ---------------------------------------------------------------------
  // Reading the emitted lines

  /** The `A=A+1` lines read as as many increments of A. */
  lemma {:induction false} IncrementsDecode(index: Option<string>)
    ensures DecodeAll(Increments(index)) == Some(IncrementInstrs(Offset(index)))
  {
    StackLinesDecode();
    var lines := Increments(index);
    forall k | 0 <= k < |lines| ensures Decode(lines[k]) == Some(IncrementInstrs(Offset(index))[k]) {
    }
    DecodesPointwise(lines, IncrementInstrs(Offset(index)));
  }

  lemma {:induction false} DecodeTwo(x: string, y: string, i: Instr, j: Instr)
    requires Decode(x) == Some(i) && Decode(y) == Some(j)
    ensures DecodeAll([x, y]) == Some([i, j])
  {
    DecodesPointwise([x, y], [i, j]);
  }

  lemma {:induction false} DecodeThreeLines(x: string, y: string, z: string, i: Instr, j: Instr, k: Instr)
    requires Decode(x) == Some(i) && Decode(y) == Some(j) && Decode(z) == Some(k)
    ensures DecodeAll([x, y, z]) == Some([i, j, k])
  {
    DecodesPointwise([x, y, z], [i, j, k]);
  }

  /** `D=M` followed by `writePushFromD`. */
  lemma {:induction false} PushTailDecodes()
    ensures DecodeAll(["D=M"] + PushFromD()) == Some([Assign(DestD, RegM)] + PushFromDCode)
  {
    StackLinesDecode();
    DecodeOne("D=M", Assign(DestD, RegM));
    PushFromDDecodes();
    DecodeAllOfConcat(["D=M"], PushFromD());
  }

  /** The lines of `push constant`. */
  lemma {:induction false} PushConstantDecodes(index: Option<string>)
    ensures DecodeAll(PushConstantCode(index)) == Some(PushConstantInstrs(JsText(index)))
  {
    StackLinesDecode();
    LoadDecodes(JsText(index));
    DecodeTwo("@" + JsText(index), "D=A", Load(JsText(index)), Assign(DestD, RegA));
    PushFromDDecodes();
    DecodeAllOfConcat(["@" + JsText(index), "D=A"], PushFromD());
  }

  /** The lines of `push` from `local`, `argument`, `this` or `that`. */
  lemma {:induction false} PushReferencedDecodes(base: string, index: Option<string>)
    ensures DecodeAll(PushReferencedCode(base, index)) == Some(PushReferencedInstrs(base, Offset(index)))
  {
    var head := ["@" + base, "A=M"];
    StackLinesDecode();
    LoadDecodes(base);
    DecodeTwo("@" + base, "A=M", Load(base), Assign(DestA, RegM));
    IncrementsDecode(index);
    PushTailDecodes();
    assert PushReferencedCode(base, index) == head + Increments(index) + (["D=M"] + PushFromD());
    DecodeAllOfConcat(head, Increments(index));
    DecodeAllOfConcat(head + Increments(index), ["D=M"] + PushFromD());
  }

  /** The lines of `pop` to `local`, `argument`, `this` or `that`. */
  lemma {:induction false} PopReferencedDecodes(base: string, index: Option<string>)
    ensures DecodeAll(PopReferencedCode(base, index)) == Some(PopReferencedInstrs(base, Offset(index)))
  {
    var mid := ["D=M", "@" + base, "A=M"];
    StackLinesDecode();
    LoadDecodes(base);
    DecodeThreeLines("D=M", "@" + base, "A=M", Assign(DestD, RegM), Load(base), Assign(DestA, RegM));
    PopToADecodes();
    IncrementsDecode(index);
    DecodeOne("M=D", Assign(DestM, RegD));
    DecodeAllOfConcat(PopToA(), mid);
    DecodeAllOfConcat(PopToA() + mid, Increments(index));
    DecodeAllOfConcat(PopToA() + mid + Increments(index), ["M=D"]);
  }

  /** The lines of `push` from `pointer` or `temp`. */
  lemma {:induction false} PushFixedDecodes(base: string, index: Option<string>)
    ensures DecodeAll(PushFixedCode(base, index)) == Some(PushFixedInstrs(base, Offset(index)))
  {
    LoadDecodes(base);
    DecodeOne("@" + base, Load(base));
    IncrementsDecode(index);
    PushTailDecodes();
    assert PushFixedCode(base, index) == ["@" + base] + Increments(index) + (["D=M"] + PushFromD());
    DecodeAllOfConcat(["@" + base], Increments(index));
    DecodeAllOfConcat(["@" + base] + Increments(index), ["D=M"] + PushFromD());
  }

  /** The lines of `pop` to `pointer` or `temp`. */
  lemma {:induction false} PopFixedDecodes(base: string, index: Option<string>)
    ensures DecodeAll(PopFixedCode(base, index)) == Some(PopFixedInstrs(base, Offset(index)))
  {
    var mid := ["D=M", "@" + base];
    StackLinesDecode();
    LoadDecodes(base);
    DecodeTwo("D=M", "@" + base, Assign(DestD, RegM), Load(base));
    PopToADecodes();
    IncrementsDecode(index);
    DecodeOne("M=D", Assign(DestM, RegD));
    DecodeAllOfConcat(PopToA(), mid);
    DecodeAllOfConcat(PopToA() + mid, Increments(index));
    DecodeAllOfConcat(PopToA() + mid + Increments(index), ["M=D"]);
  }

  /** The lines of `push static`. */
  lemma {:induction false} PushStaticDecodes(fileName: string, index: Option<string>)
    ensures DecodeAll(PushStaticCode(fileName, index)) == Some(PushStaticInstrs(StaticSymbol(fileName, index)))
  {
    var s := StaticSymbol(fileName, index);
    LoadDecodes(s);
    DecodeOne("@" + s, Load(s));
    PushTailDecodes();
    assert PushStaticCode(fileName, index) == ["@" + s] + (["D=M"] + PushFromD());
    DecodeAllOfConcat(["@" + s], ["D=M"] + PushFromD());
  }

  /** The lines of `pop static`. */
  lemma {:induction false} PopStaticDecodes(fileName: string, index: Option<string>)
    ensures DecodeAll(PopStaticCode(fileName, index)) == Some(PopStaticInstrs(StaticSymbol(fileName, index)))
  {
    var s := StaticSymbol(fileName, index);
    StackLinesDecode();
    LoadDecodes(s);
    DecodeThreeLines("D=M", "@" + s, "M=D", Assign(DestD, RegM), Load(s), Assign(DestM, RegD));
    PopToADecodes();
    DecodeAllOfConcat(PopToA(), ["D=M", "@" + s, "M=D"]);
  }

  // ---------------------------------------------------------------------
  // Running the instructions

  lemma {:induction false} WrapStep(a: Word, j: nat)
    ensures Wrap(Wrap(a + 1) + j) == Wrap(a + 1 + j)
  {
    if a + 1 == 0x10000 {
      assert Wrap(a + 1) == 0;
      assert (0x10000 + j) % 0x10000 == j % 0x10000;
    } else {
      assert Wrap(a + 1) == a + 1;
    }
  }

  /** `k` increments move A up by `k`, round the 16-bit word. */
  lemma {:induction false} IncrementsRun(k: nat, symbols: map<string, Word>, m: Machine)
    ensures Exec(IncrementInstrs(k), symbols, m) == Some(Machine(m.pc + k, Wrap(m.a + k), m.d, m.ram))
    decreases k
  {
    var code := IncrementInstrs(k);
    if k == 0 {
      assert code == [];
      WrapKeeps(m.a);
    } else {
      var m1 := Machine(m.pc + 1, Wrap(m.a + 1), m.d, m.ram);
      assert code[0] == Assign(DestA, APlusOne) && code[1..] == IncrementInstrs(k - 1);
      ExecCons(code, symbols, m, m1);
      IncrementsRun(k - 1, symbols, m1);
      WrapStep(m.a, k - 1);
    }
  }

  /** A symbol with a dot in it is looked up, not read as a number. */
  lemma {:induction false} StaticResolves(symbols: map<string, Word>, fileName: string, index: Option<string>)
    requires StaticSymbol(fileName, index) in symbols
    ensures Resolve(symbols, StaticSymbol(fileName, index)) == Some(symbols[StaticSymbol(fileName, index)])
  {
    var s := StaticSymbol(fileName, index);
    assert s[|fileName|] == '.' && !IsDigitIn(s[|fileName|], 10);
  }

  /** The bases of `local`, `argument`, `this` and `that` are their pointer words. */
  lemma {:induction false} PointerResolves(symbols: map<string, Word>, segment: Option<string>)
    requires IsReferenced(segment) && Pointers(symbols)
    ensures Resolve(symbols, SegmentLabel(segment).value) == Some(PointerAddress(segment))
  {
    ResolveSymbol(symbols, SegmentLabel(segment).value);
  }

  /** The bases of `pointer` and `temp` are the numbers 3 and 5. */
  lemma {:induction false} FixedResolves(symbols: map<string, Word>, segment: Option<string>)
    requires IsFixed(segment)
    ensures Resolve(symbols, SegmentLabel(segment).value) == Some(FixedAddress(segment))
  {
    var s := SegmentLabel(segment).value;
    assert |s| == 1 && IsDigitIn(s[0], 10);
    ValueOfShort(s, 10);
  }

  /** A load, `D=A` and the push: the word the symbol resolves to is pushed. */
  lemma {:induction false} LoadPushRuns(text: string, v: Word, symbols: map<string, Word>, m: Machine)
    requires Resolve(symbols, text) == Some(v) && Pointers(symbols) && Read(m.ram, 0) != 0
    ensures var sp := Read(m.ram, 0);
      Exec(PushConstantInstrs(text), symbols, m) == Some(Machine(m.pc + 7, 0, v, m.ram[sp := v][0 := Wrap(sp as int + 1)]))
  {
    var code := PushConstantInstrs(text);
    var m1 := Machine(m.pc + 1, v, m.d, m.ram);
    assert code[0] == Load(text) && code[1..] == [Assign(DestD, RegA)] + PushFromDCode;
    ExecCons(code, symbols, m, m1);
    FormulaThenPush(RegA, v, symbols, m1);
  }

  /** `push constant`: a decimal index is pushed, round the 16-bit word. */
  lemma {:induction false} PushConstantRuns(text: string, symbols: map<string, Word>, m: Machine)
    requires IsDecimal(text) && Pointers(symbols) && Read(m.ram, 0) != 0
    ensures var sp := Read(m.ram, 0); var v := Wrap(ValueIn(text, 10));
      Exec(PushConstantInstrs(text), symbols, m) == Some(Machine(m.pc + 7, 0, v, m.ram[sp := v][0 := Wrap(sp as int + 1)]))
  {
    LoadPushRuns(text, Wrap(ValueIn(text, 10)), symbols, m);
  }

  /** A load of a pointer symbol, `A=M` and the increments: A addresses the
      word `k` past where the pointer points. */
  lemma {:induction false} PointerIncrementsRun(base: string, p: Word, k: nat, symbols: map<string, Word>, m: Machine)
    requires Resolve(symbols, base) == Some(p)
    ensures Exec([Load(base), Assign(DestA, RegM)] + IncrementInstrs(k), symbols, m)
      == Some(Machine(m.pc + 2 + k, Wrap(Read(m.ram, p) + k), m.d, m.ram))
  {
    var x := [Load(base), Assign(DestA, RegM)];
    var m1 := Machine(m.pc + 1, p, m.d, m.ram);
    var m2 := Machine(m.pc + 2, Read(m.ram, p), m.d, m.ram);
    ExecCons(x, symbols, m, m1);
    ExecCons(x[1..], symbols, m1, m2);
    assert x[1..][1..] == [];
    ExecThen(x, IncrementInstrs(k), symbols, m, m2);
    IncrementsRun(k, symbols, m2);
  }

  /** A load of a fixed base and the increments: A addresses the word `k`
      past the base. */
  lemma {:induction false} FixedIncrementsRun(base: string, f: Word, k: nat, symbols: map<string, Word>, m: Machine)
    requires Resolve(symbols, base) == Some(f)
    ensures Exec([Load(base)] + IncrementInstrs(k), symbols, m) == Some(Machine(m.pc + 1 + k, Wrap(f + k), m.d, m.ram))
  {
    var m1 := Machine(m.pc + 1, f, m.d, m.ram);
    ExecCons([Load(base)], symbols, m, m1);
    assert [Load(base)][1..] == [];
    ExecThen([Load(base)], IncrementInstrs(k), symbols, m, m1);
    IncrementsRun(k, symbols, m1);
  }

  /** Code that leaves A at an address, then `D=M` and the push: the word
      at that address is pushed. */
  lemma {:induction false} AddressThenPush(head: seq<Instr>, symbols: map<string, Word>, m: Machine, m1: Machine)
    requires Exec(head, symbols, m) == Some(m1) && Pointers(symbols) && Read(m1.ram, 0) != 0
    ensures var sp := Read(m1.ram, 0); var v := Read(m1.ram, m1.a);
      Exec(head + ([Assign(DestD, RegM)] + PushFromDCode), symbols, m)
        == Some(Machine(m1.pc + 6, 0, v, m1.ram[sp := v][0 := Wrap(sp as int + 1)]))
  {
    ExecThen(head, [Assign(DestD, RegM)] + PushFromDCode, symbols, m, m1);
    FormulaThenPush(RegM, Read(m1.ram, m1.a), symbols, m1);
  }

  /** Code that leaves the value in D and the address in A, then `M=D`. */
  lemma {:induction false} ThenStore(head: seq<Instr>, symbols: map<string, Word>, m: Machine, m1: Machine)
    requires Exec(head, symbols, m) == Some(m1)
    ensures Exec(head + [Assign(DestM, RegD)], symbols, m) == Some(Machine(m1.pc + 1, m1.a, m1.d, m1.ram[m1.a := m1.d]))
  {
    var m2 := Machine(m1.pc + 1, m1.a, m1.d, m1.ram[m1.a := m1.d]);
    ExecThen(head, [Assign(DestM, RegD)], symbols, m, m1);
    ExecCons([Assign(DestM, RegD)], symbols, m1, m2);
    assert [Assign(DestM, RegD)][1..] == [];
  }

  /** `writePopToA` and `D=M`: the top word in D, SP one lower. */
  lemma {:induction false} PopIntoD(symbols: map<string, Word>, m: Machine)
    requires Pointers(symbols) && 1 < Read(m.ram, 0)
    ensures var sp := Read(m.ram, 0);
      Exec(PopToACode + [Assign(DestD, RegM)], symbols, m)
        == Some(Machine(m.pc + 4, sp - 1, Read(m.ram, sp - 1), m.ram[0 := sp - 1]))
  {
    var sp := Read(m.ram, 0);
    WrapKeeps(sp as int - 1);
    var m1 := Machine(m.pc + 3, sp - 1, m.d, m.ram[0 := sp - 1]);
    PopToARuns(PopToACode, symbols, m);
    AssignDStep(RegM, symbols, m1);
    ExecThen(PopToACode, [Assign(DestD, RegM)], symbols, m, m1);
  }

  /** `push` from `local`, `argument`, `this` or `that`: the word `index`
      past where the segment's pointer points is pushed. */
  lemma {:induction false} PushReferencedRuns(segment: Option<string>, index: Option<string>, symbols: map<string, Word>, m: Machine)
    requires IsReferenced(segment) && Pointers(symbols) && Read(m.ram, 0) != 0
    ensures var sp := Read(m.ram, 0); var k := Offset(index);
      var v := Read(m.ram, Wrap(Read(m.ram, PointerAddress(segment)) + k));
      Exec(PushReferencedInstrs(SegmentLabel(segment).value, k), symbols, m)
        == Some(Machine(m.pc + k + 8, 0, v, m.ram[sp := v][0 := Wrap(sp as int + 1)]))
  {
    var base := SegmentLabel(segment).value;
    var k := Offset(index);
    var m1 := Machine(m.pc + 2 + k, Wrap(Read(m.ram, PointerAddress(segment)) + k), m.d, m.ram);
    PointerResolves(symbols, segment);
    PointerIncrementsRun(base, PointerAddress(segment), k, symbols, m);
    AddressThenPush([Load(base), Assign(DestA, RegM)] + IncrementInstrs(k), symbols, m, m1);
  }

  /** `push` from `pointer` or `temp`: the word `index` past 3 or 5 is pushed. */
  lemma {:induction false} PushFixedRuns(segment: Option<string>, index: Option<string>, symbols: map<string, Word>, m: Machine)
    requires IsFixed(segment) && Pointers(symbols) && Read(m.ram, 0) != 0
    ensures var sp := Read(m.ram, 0); var k := Offset(index);
      var v := Read(m.ram, Wrap(FixedAddress(segment) + k));
      Exec(PushFixedInstrs(SegmentLabel(segment).value, k), symbols, m)
        == Some(Machine(m.pc + k + 7, 0, v, m.ram[sp := v][0 := Wrap(sp as int + 1)]))
  {
    var base := SegmentLabel(segment).value;
    var k := Offset(index);
    var m1 := Machine(m.pc + 1 + k, Wrap(FixedAddress(segment) + k), m.d, m.ram);
    FixedResolves(symbols, segment);
    FixedIncrementsRun(base, FixedAddress(segment), k, symbols, m);
    AddressThenPush([Load(base)] + IncrementInstrs(k), symbols, m, m1);
  }

  /** `push static`: the word of the file's static symbol is pushed. */
  lemma {:induction false} PushStaticRuns(fileName: string, index: Option<string>, symbols: map<string, Word>, m: Machine)
    requires StaticSymbol(fileName, index) in symbols && Pointers(symbols) && Read(m.ram, 0) != 0
    ensures var sp := Read(m.ram, 0); var v := Read(m.ram, symbols[StaticSymbol(fileName, index)]);
      Exec(PushStaticInstrs(StaticSymbol(fileName, index)), symbols, m)
        == Some(Machine(m.pc + 7, 0, v, m.ram[sp := v][0 := Wrap(sp as int + 1)]))
  {
    var s := StaticSymbol(fileName, index);
    var m1 := Machine(m.pc + 1, symbols[s], m.d, m.ram);
    StaticResolves(symbols, fileName, index);
    ExecCons([Load(s)], symbols, m, m1);
    assert [Load(s)][1..] == [];
    AddressThenPush([Load(s)], symbols, m, m1);
  }

  lemma {:induction false} PopReferencedShape(base: string, k: nat)
    ensures PopReferencedInstrs(base, k)
      == (PopToACode + [Assign(DestD, RegM)]) + ([Load(base), Assign(DestA, RegM)] + IncrementInstrs(k)) + [Assign(DestM, RegD)]
  {
    assert [Assign(DestD, RegM), Load(base), Assign(DestA, RegM)] == [Assign(DestD, RegM)] + [Load(base), Assign(DestA, RegM)];
  }

  lemma {:induction false} PopFixedShape(base: string, k: nat)
    ensures PopFixedInstrs(base, k)
      == (PopToACode + [Assign(DestD, RegM)]) + ([Load(base)] + IncrementInstrs(k)) + [Assign(DestM, RegD)]
  {
    assert [Assign(DestD, RegM), Load(base)] == [Assign(DestD, RegM)] + [Load(base)];
  }

  /** Two pieces of code that leave the value in D and the address in A,
      then `M=D`. */
  lemma {:induction false} StoreThrough(x: seq<Instr>, y: seq<Instr>, symbols: map<string, Word>, m: Machine, m1: Machine, m2: Machine)
    requires Exec(x, symbols, m) == Some(m1) && Exec(y, symbols, m1) == Some(m2)
    ensures Exec(x + y + [Assign(DestM, RegD)], symbols, m) == Some(Machine(m2.pc + 1, m2.a, m2.d, m2.ram[m2.a := m2.d]))
  {
    ExecThen(x, y, symbols, m, m1);
    ThenStore(x + y, symbols, m, m2);
  }

  /** `pop` to `local`, `argument`, `this` or `that`: the top word goes to
      the word `index` past where the segment's pointer points, and SP
      moves down. */
  lemma {:induction false} PopReferencedRuns(segment: Option<string>, index: Option<string>, symbols: map<string, Word>, m: Machine)
    requires IsReferenced(segment) && Pointers(symbols) && 1 < Read(m.ram, 0)
    ensures var sp := Read(m.ram, 0); var k := Offset(index);
      var address := Wrap(Read(m.ram, PointerAddress(segment)) + k); var v := Read(m.ram, sp - 1);
      Exec(PopReferencedInstrs(SegmentLabel(segment).value, k), symbols, m)
        == Some(Machine(m.pc + k + 7, address, v, m.ram[0 := sp - 1][address := v]))
  {
    var sp := Read(m.ram, 0);
    var base := SegmentLabel(segment).value;
    var k := Offset(index);
    var x := PopToACode + [Assign(DestD, RegM)];
    var y := [Load(base), Assign(DestA, RegM)] + IncrementInstrs(k);
    var ram1 := m.ram[0 := sp - 1];
    var m1 := Machine(m.pc + 4, sp - 1, Read(m.ram, sp - 1), ram1);
    var m2 := Machine(m.pc + 6 + k, Wrap(Read(m.ram, PointerAddress(segment)) + k), m1.d, ram1);
    assert Read(ram1, PointerAddress(segment)) == Read(m.ram, PointerAddress(segment));
    PopReferencedShape(base, k);
    PopIntoD(symbols, m);
    PointerResolves(symbols, segment);
    PointerIncrementsRun(base, PointerAddress(segment), k, symbols, m1);
    StoreThrough(x, y, symbols, m, m1, m2);
  }

  /** `pop` to `pointer` or `temp`: the top word goes to the word `index`
      past 3 or 5, and SP moves down. */
  lemma {:induction false} PopFixedRuns(segment: Option<string>, index: Option<string>, symbols: map<string, Word>, m: Machine)
    requires IsFixed(segment) && Pointers(symbols) && 1 < Read(m.ram, 0)
    ensures var sp := Read(m.ram, 0); var k := Offset(index);
      var address := Wrap(FixedAddress(segment) + k); var v := Read(m.ram, sp - 1);
      Exec(PopFixedInstrs(SegmentLabel(segment).value, k), symbols, m)
        == Some(Machine(m.pc + k + 6, address, v, m.ram[0 := sp - 1][address := v]))
  {
    var sp := Read(m.ram, 0);
    var base := SegmentLabel(segment).value;
    var k := Offset(index);
    var x := PopToACode + [Assign(DestD, RegM)];
    var y := [Load(base)] + IncrementInstrs(k);
    var m1 := Machine(m.pc + 4, sp - 1, Read(m.ram, sp - 1), m.ram[0 := sp - 1]);
    var m2 := Machine(m.pc + 5 + k, Wrap(FixedAddress(segment) + k), m1.d, m1.ram);
    PopFixedShape(base, k);
    PopIntoD(symbols, m);
    FixedResolves(symbols, segment);
    FixedIncrementsRun(base, FixedAddress(segment), k, symbols, m1);
    StoreThrough(x, y, symbols, m, m1, m2);
  }

  /** `pop static`: the top word goes to the word of the file's static
      symbol, and SP moves down. */
  lemma {:induction false} PopStaticRuns(fileName: string, index: Option<string>, symbols: map<string, Word>, m: Machine)
    requires StaticSymbol(fileName, index) in symbols && Pointers(symbols) && 1 < Read(m.ram, 0)
    ensures var sp := Read(m.ram, 0); var address := symbols[StaticSymbol(fileName, index)];
      var v := Read(m.ram, sp - 1);
      Exec(PopStaticInstrs(StaticSymbol(fileName, index)), symbols, m)
        == Some(Machine(m.pc + 6, address, v, m.ram[0 := sp - 1][address := v]))
  {
    var sp := Read(m.ram, 0);
    var s := StaticSymbol(fileName, index);
    var x := PopToACode + [Assign(DestD, RegM)];
    var m1 := Machine(m.pc + 4, sp - 1, Read(m.ram, sp - 1), m.ram[0 := sp - 1]);
    var m2 := Machine(m.pc + 5, symbols[s], m1.d, m1.ram);
    assert PopStaticInstrs(s) == x + [Load(s)] + [Assign(DestM, RegD)];
    PopIntoD(symbols, m);
    StaticResolves(symbols, fileName, index);
    ExecCons([Load(s)], symbols, m1, m2);
    assert [Load(s)][1..] == [];
    StoreThrough(x, [Load(s)], symbols, m, m1, m2);
  }
}
