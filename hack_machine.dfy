/** The Hack computer running assembly text, for the instructions the VM
    translators emit: A-instructions, label definitions, assignments to one
    register and jumps. Words are 16-bit; the CPU's registers are A, D and
    the program counter, and M is the RAM word A points at. The program
    counter counts lines, label definitions included, so a label stands for
    the line that defines it, where the machine does nothing; the assembled
    program runs the same way without those idle steps. */
module HackMachine {
  import opened Wrappers
  import opened Text
  import HackSymbols

  /** A 16-bit word, as the number its bits spell without a sign. */
  type Word = x: int | 0 <= x < 0x10000

  /** Addition and subtraction keep the low 16 bits. */
  function Wrap(x: int): Word {
    x % 0x10000
  }

  lemma {:induction false} WrapKeeps(x: int)
    requires 0 <= x < 0x10000
    ensures Wrap(x) == x
  {
  }

  /** Bitwise and, one bit at a time from the lowest. */
  function BitAnd(x: nat, y: nat): (r: nat)
    ensures r <= x && r <= y
    decreases x
  {
    if x == 0 || y == 0 then 0
    else 2 * BitAnd(x / 2, y / 2) + (if x % 2 == 1 && y % 2 == 1 then 1 else 0)
  }

  lemma {:induction false} BitAndCommutes(x: nat, y: nat)
    ensures BitAnd(x, y) == BitAnd(y, x)
    decreases x
  {
    if x != 0 && y != 0 {
      BitAndCommutes(x / 2, y / 2);
    }
  }

  /** Bitwise not flips all 16 bits. */
  function Not(x: Word): Word {
    0xFFFF - x
  }

  function And(x: Word, y: Word): Word {
    BitAnd(x, y)
  }

  /** Bitwise or, by De Morgan's law. */
  function Or(x: Word, y: Word): Word {
    Not(And(Not(x), Not(y)))
  }

  /** The register an assignment writes. */
  datatype Dest = DestA | DestD | DestM

  /** The computations of the ALU the translators use, named after their
      mnemonics. */
  datatype Comp =
    | Zero | MinusOne | RegA | RegD | RegM | NegM | NotM
    | DPlusM | MMinusD | DAndM | DOrM | MPlusOne | MMinusOne | APlusOne

  /** The jump conditions the translators use. */
  datatype Cond = JEQ | JGT | JLT | JMP

  datatype Instr =
    | Load(symbol: string)
    | Define(name: string)
    | Assign(dest: Dest, comp: Comp)
    | Jump(comp: Comp, cond: Cond)

  // ---------------------------------------------------------------------
  // Reading the text

  function DestOf(c: char): Option<Dest> {
    if c == 'A' then Some(DestA)
    else if c == 'D' then Some(DestD)
    else if c == 'M' then Some(DestM)
    else None
  }

  function CompOf(s: string): Option<Comp> {
    if s == "0" then Some(Zero)
    else if s == "-1" then Some(MinusOne)
    else if s == "A" then Some(RegA)
    else if s == "D" then Some(RegD)
    else if s == "M" then Some(RegM)
    else if s == "-M" then Some(NegM)
    else if s == "!M" then Some(NotM)
    else if s == "D+M" then Some(DPlusM)
    else if s == "M-D" then Some(MMinusD)
    else if s == "D&M" then Some(DAndM)
    else if s == "D|M" then Some(DOrM)
    else if s == "M+1" then Some(MPlusOne)
    else if s == "M-1" then Some(MMinusOne)
    else if s == "A+1" then Some(APlusOne)
    else None
  }

  function CondOf(s: string): Option<Cond> {
    if s == "JEQ" then Some(JEQ)
    else if s == "JGT" then Some(JGT)
    else if s == "JLT" then Some(JLT)
    else if s == "JMP" then Some(JMP)
    else None
  }

  /** One line of assembly: `@symbol`, `(label)`, `dest=comp` or
      `comp;jump`; `None` for anything else. */
  function Decode(line: string): Option<Instr> {
    if |line| > 0 && line[0] == '@' then Some(Load(line[1..]))
    else if |line| >= 2 && line[0] == '(' && line[|line| - 1] == ')' then Some(Define(line[1..|line| - 1]))
    else if |line| >= 3 && line[1] == '=' then
      var r :- DestOf(line[0]);
      var c :- CompOf(line[2..]);
      Some(Assign(r, c))
    else if |line| >= 3 && line[1] == ';' then
      var c :- CompOf(line[..1]);
      var j :- CondOf(line[2..]);
      Some(Jump(c, j))
    else None
  }

  /** Every line decoded, or `None` when one of them does not decode. */
  function DecodeAll(lines: seq<string>): Option<seq<Instr>>
    decreases |lines|
  {
    if lines == [] then Some([])
    else
      var i :- Decode(lines[0]);
      var rest :- DecodeAll(lines[1..]);
      Some([i] + rest)
  }

  lemma {:induction false} DecodeOne(line: string, i: Instr)
    requires Decode(line) == Some(i)
    ensures DecodeAll([line]) == Some([i])
  {
    assert [line][0] == line && [line][1..] == [];
    assert DecodeAll([line][1..]) == Some([]);
    assert [i] + [] == [i];
  }

  lemma {:induction false} DecodeAllOfConcat(a: seq<string>, b: seq<string>)
    ensures DecodeAll(a + b) == (var x :- DecodeAll(a); var y :- DecodeAll(b); Some(x + y))
    decreases |a|
  {
    if a == [] {
      assert a + b == b;
      if DecodeAll(b).Some? {
        assert [] + DecodeAll(b).value == DecodeAll(b).value;
      }
    } else {
      assert (a + b)[0] == a[0] && (a + b)[1..] == a[1..] + b;
      DecodeAllOfConcat(a[1..], b);
      if DecodeAll(a).Some? && DecodeAll(b).Some? {
        var x := DecodeAll(a[1..]).value;
        assert [Decode(a[0]).value] + (x + DecodeAll(b).value) == [Decode(a[0]).value] + x + DecodeAll(b).value;
      }
    }
  }

  /** Lines decode to the instructions they decode to one by one. */
  lemma {:induction false} DecodesPointwise(lines: seq<string>, code: seq<Instr>)
    requires |lines| == |code| && forall k :: 0 <= k < |lines| ==> Decode(lines[k]) == Some(code[k])
    ensures DecodeAll(lines) == Some(code)
    decreases |lines|
  {
    if lines != [] {
      assert Decode(lines[0]) == Some(code[0]);
      forall k | 0 <= k < |lines[1..]| ensures Decode(lines[1..][k]) == Some(code[1..][k]) {
        assert lines[1..][k] == lines[k + 1] && code[1..][k] == code[k + 1];
      }
      DecodesPointwise(lines[1..], code[1..]);
      assert [code[0]] + code[1..] == code;
    }
  }

  // ---------------------------------------------------------------------
  // Running

  /** The registers and the RAM, keyed by address; a RAM word never written
      holds 0. */
  datatype Machine = Machine(pc: nat, a: Word, d: Word, ram: map<int, Word>)

  function Read(ram: map<int, Word>, x: Word): Word {
    if x in ram then ram[x] else 0
  }

  /** A word written twice keeps the second value. */
  lemma {:induction false} WriteTwice(ram: map<int, Word>, k: int, u: Word, w: Word, t: int, v: Word)
    requires t != k
    ensures ram[k := u][t := v][k := w] == ram[t := v][k := w]
  {
  }

  /** Writing back the word an address already holds changes nothing. */
  lemma {:induction false} WriteSame(ram: map<int, Word>, t: int, v: Word, x: Word)
    requires t != x && Read(ram, x) != 0
    ensures ram[t := v][x := Read(ram, x)] == ram[t := v]
  {
  }

  /** A word as a two's-complement number. */
  function Signed(w: Word): int {
    if w < 0x8000 then w else w - 0x10000
  }

  function Value(c: Comp, m: Machine): Word {
    var x := Read(m.ram, m.a);
    match c
    case Zero => 0
    case MinusOne => 0xFFFF
    case RegA => m.a
    case RegD => m.d
    case RegM => x
    case NegM => Wrap(0 - x)
    case NotM => Not(x)
    case DPlusM => Wrap(m.d + x)
    case MMinusD => Wrap(x - m.d)
    case DAndM => And(m.d, x)
    case DOrM => Or(m.d, x)
    case MPlusOne => Wrap(x + 1)
    case MMinusOne => Wrap(x - 1)
    case APlusOne => Wrap(m.a + 1)
  }

  predicate Holds(j: Cond, v: Word) {
    match j
    case JEQ => v == 0
    case JGT => Signed(v) > 0
    case JLT => Signed(v) < 0
    case JMP => true
  }

  /** The symbols a program is assembled with cover the platform's
      predefined ones, at their addresses. */
  predicate Assembled(symbols: map<string, Word>) {
    forall s | s in HackSymbols.Platform :: s in symbols && symbols[s] == HackSymbols.Platform[s]
  }

  /** The five VM pointers at their platform addresses, which is all of the
      predefined symbols the VM translators use. */
  predicate Pointers(symbols: map<string, Word>) {
    && "SP" in symbols && symbols["SP"] == 0
    && "LCL" in symbols && symbols["LCL"] == 1
    && "ARG" in symbols && symbols["ARG"] == 2
    && "THIS" in symbols && symbols["THIS"] == 3
    && "THAT" in symbols && symbols["THAT"] == 4
  }

  lemma {:induction false} AssembledPointers(symbols: map<string, Word>)
    requires Assembled(symbols)
    ensures Pointers(symbols)
  {
    assert "SP" in HackSymbols.Platform && HackSymbols.Platform["SP"] == 0;
    assert "LCL" in HackSymbols.Platform && HackSymbols.Platform["LCL"] == 1;
    assert "ARG" in HackSymbols.Platform && HackSymbols.Platform["ARG"] == 2;
    assert "THIS" in HackSymbols.Platform && HackSymbols.Platform["THIS"] == 3;
    assert "THAT" in HackSymbols.Platform && HackSymbols.Platform["THAT"] == 4;
  }

  /** The word an A-instruction loads: a decimal constant, of which the
      word keeps the low 16 bits as the assembler writes them, or the
      address of a symbol. */
  function Resolve(symbols: map<string, Word>, s: string): Option<Word> {
    if IsDecimal(s) then Some(Wrap(ValueIn(s, 10)))
    else if s in symbols then Some(symbols[s])
    else None
  }

  /** One instruction: the new state, or `None` for a symbol the program
      was not assembled with. */
  function Effect(i: Instr, symbols: map<string, Word>, m: Machine): Option<Machine> {
    match i
    case Load(s) =>
      var v :- Resolve(symbols, s);
      Some(m.(pc := m.pc + 1, a := v))
    case Define(_) => Some(m.(pc := m.pc + 1))
    case Assign(r, c) =>
      var v := Value(c, m);
      Some(match r
        case DestA => m.(pc := m.pc + 1, a := v)
        case DestD => m.(pc := m.pc + 1, d := v)
        case DestM => m.(pc := m.pc + 1, ram := m.ram[m.a := v]))
    case Jump(c, j) => Some(m.(pc := if Holds(j, Value(c, m)) then m.a else m.pc + 1))
  }

  /** `k` steps of the program from `m`; `None` when the program counter
      leaves the program or a symbol does not resolve. */
  function Run(prog: seq<Instr>, symbols: map<string, Word>, m: Machine, k: nat): Option<Machine>
    decreases k
  {
    if k == 0 then Some(m)
    else if m.pc >= |prog| then None
    else
      var m' :- Effect(prog[m.pc], symbols, m);
      Run(prog, symbols, m', k - 1)
  }

  /** The instructions one after the other, as straight-line code runs. */
  function Exec(code: seq<Instr>, symbols: map<string, Word>, m: Machine): Option<Machine>
    decreases |code|
  {
    if code == [] then Some(m)
    else
      var m' :- Effect(code[0], symbols, m);
      Exec(code[1..], symbols, m')
  }

  /** Straight-line code takes its first step, then runs the rest. */
  lemma {:induction false} ExecCons(code: seq<Instr>, symbols: map<string, Word>, m: Machine, m1: Machine)
    requires code != [] && Effect(code[0], symbols, m) == Some(m1)
    ensures Exec(code, symbols, m) == Exec(code[1..], symbols, m1)
  {
  }

  /** Straight-line code goes through the states of a trace when each of
      its instructions takes one state of the trace to the next. */
  lemma {:induction false} ExecTrace(code: seq<Instr>, symbols: map<string, Word>, ms: seq<Machine>)
    requires |ms| == |code| + 1
    requires forall k :: 0 <= k < |code| ==> Effect(code[k], symbols, ms[k]) == Some(ms[k + 1])
    ensures Exec(code, symbols, ms[0]) == Some(ms[|code|])
    decreases |code|
  {
    if code != [] {
      assert Effect(code[0], symbols, ms[0]) == Some(ms[1]);
      forall k | 0 <= k < |code[1..]| ensures Effect(code[1..][k], symbols, ms[1..][k]) == Some(ms[1..][k + 1]) {
        assert code[1..][k] == code[k + 1] && ms[1..][k] == ms[k + 1] && ms[1..][k + 1] == ms[k + 2];
      }
      ExecTrace(code[1..], symbols, ms[1..]);
    }
  }

  predicate NoJumps(code: seq<Instr>) {
    forall i :: 0 <= i < |code| ==> !code[i].Jump?
  }

  /** Running is associative in the number of steps. */
  lemma {:induction false} RunSplit(prog: seq<Instr>, symbols: map<string, Word>, m: Machine, j: nat, k: nat)
    ensures Run(prog, symbols, m, j + k) == (var m' :- Run(prog, symbols, m, j); Run(prog, symbols, m', k))
    decreases j
  {
    if j > 0 && m.pc < |prog| {
      var e := Effect(prog[m.pc], symbols, m);
      if e.Some? {
        RunSplit(prog, symbols, e.value, j - 1, k);
      }
    }
  }

  /** An instruction other than a jump moves on to the next line. */
  lemma {:induction false} EffectMovesOn(i: Instr, symbols: map<string, Word>, m: Machine)
    requires !i.Jump?
    ensures Effect(i, symbols, m).Some? ==> Effect(i, symbols, m).value.pc == m.pc + 1
  {
  }

  /** Straight-line code placed at the program counter runs, step for step,
      as the instructions one after the other. */
  lemma {:induction false} RunBlock(prog: seq<Instr>, symbols: map<string, Word>, m: Machine, code: seq<Instr>)
    requires m.pc + |code| <= |prog| && prog[m.pc..m.pc + |code|] == code && NoJumps(code)
    ensures Run(prog, symbols, m, |code|) == Exec(code, symbols, m)
    ensures Exec(code, symbols, m).Some? ==> Exec(code, symbols, m).value.pc == m.pc + |code|
    decreases |code|
  {
    if code != [] {
      assert prog[m.pc] == code[0];
      var e := Effect(code[0], symbols, m);
      assert Run(prog, symbols, m, |code|) == (var m' :- e; Run(prog, symbols, m', |code| - 1));
      assert Exec(code, symbols, m) == (var m' :- e; Exec(code[1..], symbols, m'));
      if e.Some? {
        EffectMovesOn(code[0], symbols, m);
        var rest := code[1..];
        assert prog[e.value.pc..e.value.pc + |rest|] == rest;
        assert NoJumps(rest) by {
          forall i | 0 <= i < |rest| ensures !rest[i].Jump? {
            assert rest[i] == code[i + 1];
          }
        }
        RunBlock(prog, symbols, e.value, rest);
      }
    }
  }

  lemma {:induction false} ExecOfConcat(x: seq<Instr>, y: seq<Instr>, symbols: map<string, Word>, m: Machine)
    ensures Exec(x + y, symbols, m) == (var m' :- Exec(x, symbols, m); Exec(y, symbols, m'))
    decreases |x|
  {
    if x == [] {
      assert x + y == y;
    } else {
      assert (x + y)[0] == x[0] && (x + y)[1..] == x[1..] + y;
      var e := Effect(x[0], symbols, m);
      if e.Some? {
        ExecOfConcat(x[1..], y, symbols, e.value);
      }
    }
  }

  /** Straight-line code that reaches `m1` goes on from there. */
  lemma {:induction false} ExecThen(x: seq<Instr>, y: seq<Instr>, symbols: map<string, Word>, m: Machine, m1: Machine)
    requires Exec(x, symbols, m) == Some(m1)
    ensures Exec(x + y, symbols, m) == Exec(y, symbols, m1)
  {
    ExecOfConcat(x, y, symbols, m);
  }

  /** Three pieces of straight-line code run one after the other. */
  lemma {:induction false} Exec3(x: seq<Instr>, y: seq<Instr>, z: seq<Instr>, symbols: map<string, Word>, m: Machine, m1: Machine, m2: Machine, m3: Machine)
    requires Exec(x, symbols, m) == Some(m1) && Exec(y, symbols, m1) == Some(m2) && Exec(z, symbols, m2) == Some(m3)
    ensures Exec(x + y + z, symbols, m) == Some(m3)
  {
    ExecThen(x, y, symbols, m, m1);
    ExecOfConcat(y, z, symbols, m1);
    assert x + y + z == x + (y + z);
    ExecThen(x, y + z, symbols, m, m1);
  }

  /** An assignment to D computes its value into D and moves on. */
  lemma {:induction false} AssignDStep(c: Comp, symbols: map<string, Word>, m: Machine)
    ensures Exec([Assign(DestD, c)], symbols, m) == Some(Machine(m.pc + 1, m.a, Value(c, m), m.ram))
  {
    ExecCons([Assign(DestD, c)], symbols, m, Machine(m.pc + 1, m.a, Value(c, m), m.ram));
  }

  /** `code` sits in the program from line `p` on. */
  predicate Placed(prog: seq<Instr>, p: nat, code: seq<Instr>) {
    p + |code| <= |prog| && prog[p..p + |code|] == code
  }

  lemma {:induction false} PlacedConcat(prog: seq<Instr>, p: nat, x: seq<Instr>, y: seq<Instr>)
    requires Placed(prog, p, x + y)
    ensures Placed(prog, p, x) && Placed(prog, p + |x|, y)
  {
    assert prog[p..p + |x|] == (x + y)[..|x|] == x;
    assert prog[p + |x|..p + |x| + |y|] == (x + y)[|x|..] == y;
  }

  /** Runs that reach `m1` go on from there. */
  lemma {:induction false} RunThen(prog: seq<Instr>, symbols: map<string, Word>, m: Machine, j: nat, k: nat, m1: Machine)
    requires Run(prog, symbols, m, j) == Some(m1)
    ensures Run(prog, symbols, m, j + k) == Run(prog, symbols, m1, k)
  {
    RunSplit(prog, symbols, m, j, k);
  }

  /** Straight-line code placed at the program counter runs as `Exec` says. */
  lemma {:induction false} RunPlaced(prog: seq<Instr>, symbols: map<string, Word>, m: Machine, code: seq<Instr>, m1: Machine)
    requires Placed(prog, m.pc, code) && NoJumps(code) && Exec(code, symbols, m) == Some(m1)
    ensures Run(prog, symbols, m, |code|) == Some(m1)
  {
    RunBlock(prog, symbols, m, code);
  }

  /** Two pieces of straight-line code, each placed where the other leaves off. */
  lemma {:induction false} RunTwoPlaced(prog: seq<Instr>, symbols: map<string, Word>, m: Machine, x: seq<Instr>, y: seq<Instr>, m1: Machine, m2: Machine)
    requires Placed(prog, m.pc, x) && NoJumps(x) && Exec(x, symbols, m) == Some(m1)
    requires Placed(prog, m1.pc, y) && NoJumps(y) && Exec(y, symbols, m1) == Some(m2)
    ensures Run(prog, symbols, m, |x| + |y|) == Some(m2)
  {
    RunPlaced(prog, symbols, m, x, m1);
    RunPlaced(prog, symbols, m1, y, m2);
    RunThen(prog, symbols, m, |x|, |y|, m1);
  }

  /** A jump goes to A when its condition holds of its computation, and to
      the next line otherwise. */
  lemma {:induction false} JumpStep(prog: seq<Instr>, symbols: map<string, Word>, m: Machine, c: Comp, j: Cond)
    requires m.pc < |prog| && prog[m.pc] == Jump(c, j)
    ensures Run(prog, symbols, m, 1) == Some(m.(pc := if Holds(j, Value(c, m)) then m.a else m.pc + 1))
  {
    var m1 := m.(pc := if Holds(j, Value(c, m)) then m.a else m.pc + 1);
    assert Effect(prog[m.pc], symbols, m) == Some(m1);
    assert Run(prog, symbols, m1, 0) == Some(m1);
  }

  lemma {:induction false} NoJumpsConcat(x: seq<Instr>, y: seq<Instr>)
    requires NoJumps(x) && NoJumps(y)
    ensures NoJumps(x + y)
  {
    forall i | 0 <= i < |x + y| ensures !(x + y)[i].Jump? {
      if i < |x| {
        assert (x + y)[i] == x[i];
      } else {
        assert (x + y)[i] == y[i - |x|];
      }
    }
  }
}
