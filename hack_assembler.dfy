/** The two-pass driver of the Hack assembler (projects/06/assembler/index.js).
    Pass one gives every label the ROM address of the next A- or C-command;
    pass two encodes each A- and C-command as one 16-bit word, allocating
    RAM from address 16 for symbols it has not seen. */
module HackAssembler {
  import opened Wrappers
  import opened Text
  import opened HackCode
  import opened HackParser
  import opened HackSymbols

  // ---------------------------------------------------------------------
  // Pass one: labels

  datatype LabelState = LabelState(rom: nat, table: map<string, string>)

  /** The six-digit hexadecimal text a label's ROM address is stored as. */
  function RomText(rom: nat): string {
    PadTo(ToBase(rom, 16), 6)
  }

  /** Pass one on one command: A and C advance the ROM address; a label not
      yet in the table is stored with the current ROM address, and a symbol
      already stored keeps its address. */
  function LabelStep(st: LabelState, c: string): (r: LabelState)
    ensures r.rom == st.rom + Weight(c)
    ensures TypeOf(c) == LCommand ==> Stored(r.table, Symbol(c).value)
    ensures TypeOf(c) == LCommand && !Stored(st.table, Symbol(c).value) ==>
      r.table == st.table[Symbol(c).value := RomText(st.rom)]
    ensures TypeOf(c) != LCommand || Stored(st.table, Symbol(c).value) ==> r.table == st.table
  {
    match TypeOf(c)
    case LCommand =>
      var s := Symbol(c).value;
      if Stored(st.table, s) then st else st.(table := st.table[s := RomText(st.rom)])
    case _ => st.(rom := st.rom + 1)
  }

  /** The state of pass one after the first `n` commands, from table `t`. */
  function LabelsAfter(cmds: seq<string>, n: nat, t: map<string, string>): LabelState
    requires n <= |cmds|
  {
    if n == 0 then LabelState(0, t)
    else LabelStep(LabelsAfter(cmds, n - 1, t), cmds[n - 1])
  }

  lemma LabelsAfterNext(cmds: seq<string>, n: nat, t: map<string, string>, before: LabelState, after: LabelState)
    requires n < |cmds| && before == LabelsAfter(cmds, n, t) && after == LabelStep(before, cmds[n])
    ensures after == LabelsAfter(cmds, n + 1, t)
  {
  }

  /** 1 for an A- or C-command, 0 for a label. */
  function Weight(c: string): nat {
    if TypeOf(c) == LCommand then 0 else 1
  }

  /** The number of A- and C-commands among the first `n` commands. */
  function Emitting(cmds: seq<string>, n: nat): nat
    requires n <= |cmds|
  {
    if n == 0 then 0 else Emitting(cmds, n - 1) + Weight(cmds[n - 1])
  }

  /** No address text in a table is empty. */
  predicate NoEmptyAddress(t: map<string, string>) {
    forall k | k in t :: t[k] != ""
  }

  /** In pass one the ROM address counts the A- and C-commands seen so far,
      and every stored address stays non-empty. */
  lemma {:induction false} RomCountsCommands(cmds: seq<string>, n: nat, t: map<string, string>)
    requires n <= |cmds| && NoEmptyAddress(t)
    ensures LabelsAfter(cmds, n, t).rom == Emitting(cmds, n)
    ensures NoEmptyAddress(LabelsAfter(cmds, n, t).table)
  {
    if n > 0 {
      RomCountsCommands(cmds, n - 1, t);
    }
  }

  /** A label receives the number of A- and C-commands before it, unless the
      table already held the symbol. Later steps of the pass never replace it:
      the first definition wins. */
  lemma LabelAddress(cmds: seq<string>, j: nat, n: nat, t: map<string, string>)
    requires j < n <= |cmds| && NoEmptyAddress(t)
    requires TypeOf(cmds[j]) == LCommand
    requires !Stored(LabelsAfter(cmds, j, t).table, Symbol(cmds[j]).value)
    ensures Stored(LabelsAfter(cmds, n, t).table, Symbol(cmds[j]).value)
    ensures LabelsAfter(cmds, n, t).table[Symbol(cmds[j]).value] == RomText(Emitting(cmds, j))
  {
    var before := LabelsAfter(cmds, j, t);
    RomCountsCommands(cmds, j, t);
    LabelStepStores(before, cmds[j]);
    LabelPersists(cmds, j + 1, n, t, Symbol(cmds[j]).value);
  }

  lemma LabelStepStores(st: LabelState, c: string)
    requires TypeOf(c) == LCommand && !Stored(st.table, Symbol(c).value)
    ensures Stored(LabelStep(st, c).table, Symbol(c).value)
    ensures LabelStep(st, c).table[Symbol(c).value] == RomText(st.rom)
  {
  }

  /** Once pass one has stored a symbol, its address stays as it is. */
  lemma {:induction false} LabelPersists(cmds: seq<string>, m: nat, n: nat, t: map<string, string>, s: string)
    requires m <= n <= |cmds|
    requires Stored(LabelsAfter(cmds, m, t).table, s)
    ensures Stored(LabelsAfter(cmds, n, t).table, s)
    ensures LabelsAfter(cmds, n, t).table[s] == LabelsAfter(cmds, m, t).table[s]
    decreases n
  {
    if n > m {
      LabelPersists(cmds, m, n - 1, t, s);
      LabelStepKeeps(LabelsAfter(cmds, n - 1, t), cmds[n - 1], s);
    }
  }

  /** Pass one never changes the address of a symbol already stored. */
  lemma LabelStepKeeps(st: LabelState, c: string, s: string)
    requires Stored(st.table, s)
    ensures Stored(LabelStep(st, c).table, s) && LabelStep(st, c).table[s] == st.table[s]
  {
  }

  /** The stored label text reads back through `parseInt(…, 16)` as the ROM
      address, for every address below `16^6`. */
  lemma RomTextReadsBack(rom: nat)
    requires rom < Pow(16, 6)
    ensures ParseHex(RomText(rom)) == Some(rom)
  {
    ParseHexOfPadded(rom, 6);
    ModOfSum(0, Pow(16, 6), rom);
  }

  // ---------------------------------------------------------------------
  // Pass two: encoding

  datatype EncodeState = EncodeState(words: seq<string>, table: map<string, string>, ram: nat)

  /** The four-digit hexadecimal text, with `0x`, a variable's RAM address is stored as. */
  function RamText(ram: nat): string {
    "0x" + PadTo(ToBase(ram, 16), 4)
  }

  /** `isNaN(symbol)`: the symbol is not read as a number. Only the empty
      text and decimal digit strings are taken as numbers here. */
  predicate IsName(symbol: string) {
    symbol != "" && !IsDecimal(symbol)
  }

  /** `('0'.repeat(16) + x.toString(2)).slice(-16)` for `x = parseInt(…)`. */
  function BinaryText(x: Option<nat>): string {
    PadTo(NumberText(x, 2), 16)
  }

  /** `'111' + comp + dest + jump`: a 16-bit binary word when both the comp
      and the jump mnemonic are in their tables, and `undefined` in place of
      the one that is not. */
  function CWord(c: string): (w: string)
    requires TypeOf(c) == CCommand
    ensures |w| >= 6 && w[..3] == "111"
    ensures Comp(CompField(c).value).Some? && Jump(JumpField(c).value).Some? ==> |w| == 16 && AllDigitsIn(w, 2)
  {
    FieldBits(JsText(Comp(CompField(c).value)), Dest(DestField(c).value), JsText(Jump(JumpField(c).value)));
    "111" + JsText(Comp(CompField(c).value)) + Dest(DestField(c).value) + JsText(Jump(JumpField(c).value))
  }

  /** The shape of `'111' + comp + dest + jump` for any three texts. */
  lemma FieldBits(cb: string, db: string, jb: string)
    ensures var w := "111" + cb + db + jb; |w| == 3 + |cb| + |db| + |jb| && w[..3] == "111"
    ensures |cb| == 7 && AllDigitsIn(cb, 2) && |db| == 3 && AllDigitsIn(db, 2) && |jb| == 3 && AllDigitsIn(jb, 2) ==>
      AllDigitsIn("111" + cb + db + jb, 2)
  {
    var w := "111" + cb + db + jb;
    assert w[..3] == "111";
    if |cb| == 7 && AllDigitsIn(cb, 2) && |db| == 3 && AllDigitsIn(db, 2) && |jb| == 3 && AllDigitsIn(jb, 2) {
      WordBits(cb, db, jb);
    }
  }

  /** Pass two on one command: one more word for an A- or C-command, none
      for a label; only a new variable grows the table, at the next free RAM
      address. */
  function EncodeStep(st: EncodeState, c: string): (r: EncodeState)
    ensures |r.words| == |st.words| + Weight(c) && r.words[..|st.words|] == st.words
  {
    match TypeOf(c)
    case CCommand => st.(words := st.words + [CWord(c)])
    case ACommand =>
      var s := Symbol(c).value;
      if !IsName(s) then st.(words := st.words + [BinaryText(ParseDecimal(s))])
      else if Stored(st.table, s) then st.(words := st.words + [BinaryText(ParseHex(st.table[s]))])
      else
        var address := RamText(st.ram);
        EncodeState(st.words + [BinaryText(ParseHex(address))], st.table[s := address], st.ram + 1)
    case LCommand => st
  }

  /** The state of pass two after the first `n` commands, from table `t`. */
  function EncodeAfter(cmds: seq<string>, n: nat, t: map<string, string>): EncodeState
    requires n <= |cmds|
  {
    Fold(EncodeStep, cmds, n, EncodeState([], t, 16))
  }

  /** `step` applied to the first `n` commands in turn, from `st0`. */
  function Fold(step: (EncodeState, string) -> EncodeState, cmds: seq<string>, n: nat, st0: EncodeState): EncodeState
    requires n <= |cmds|
  {
    if n == 0 then st0 else step(Fold(step, cmds, n - 1, st0), cmds[n - 1])
  }

  /** A property of states that every step keeps holds after any number of
      steps. */
  lemma {:induction false} FoldPreserves(step: (EncodeState, string) -> EncodeState, cmds: seq<string>, n: nat,
                                         st0: EncodeState, p: EncodeState -> bool)
    requires n <= |cmds| && p(st0)
    requires forall st, c :: p(st) ==> p(step(st, c))
    ensures p(Fold(step, cmds, n, st0))
  {
    if n > 0 {
      FoldPreserves(step, cmds, n - 1, st0, p);
    }
  }

  lemma EncodeAfterStep(cmds: seq<string>, n: nat, t: map<string, string>)
    requires 0 < n <= |cmds|
    ensures EncodeAfter(cmds, n, t) == EncodeStep(EncodeAfter(cmds, n - 1, t), cmds[n - 1])
  {
  }

  lemma EncodeAfterNext(cmds: seq<string>, n: nat, t: map<string, string>, before: EncodeState, after: EncodeState)
    requires n < |cmds| && before == EncodeAfter(cmds, n, t) && after == EncodeStep(before, cmds[n])
    ensures after == EncodeAfter(cmds, n + 1, t)
  {
  }

  /** The machine code of a whole program: pass two over pass one's table. */
  function MachineCode(content: string): (r: seq<string>)
    ensures var cmds := Commands(Instructions(content)); |r| == Emitting(cmds, |cmds|)
  {
    var cmds := Commands(Instructions(content));
    OneWordPerCommand(cmds, |cmds|, LabelsAfter(cmds, |cmds|, Predefined()).table);
    EncodeAfter(cmds, |cmds|, LabelsAfter(cmds, |cmds|, Predefined()).table).words
  }

  /** Pass two writes one word per A- and C-command and none for labels, so
      the program has as many words as pass one's final ROM address. */
  lemma {:induction false} OneWordPerCommand(cmds: seq<string>, n: nat, t: map<string, string>)
    requires n <= |cmds|
    ensures |EncodeAfter(cmds, n, t).words| == Emitting(cmds, n)
  {
    if n > 0 {
      OneWordPerCommand(cmds, n - 1, t);
      EncodeAfterStep(cmds, n, t);
      EncodeStepWords(EncodeAfter(cmds, n - 1, t), cmds[n - 1]);
      assert Emitting(cmds, n) == Emitting(cmds, n - 1) + Weight(cmds[n - 1]);
    }
  }

  lemma EncodeStepWords(st: EncodeState, c: string)
    ensures |EncodeStep(st, c).words| == |st.words| + Weight(c)
  {
  }

  /** A numeric A-command is the low 16 bits of its value, in binary. */
  lemma NumericAddressWord(st: EncodeState, value: string)
    requires IsDecimal(value)
    ensures EncodeStep(st, "@" + value) == st.(words := st.words + [PadTo(ToBase(DecimalValue(value), 2), 16)])
    ensures ValueIn(PadTo(ToBase(DecimalValue(value), 2), 16), 2) == DecimalValue(value) % 65536
  {
    SymbolOfAddress(value);
    BinaryWord(DecimalValue(value));
  }

  /** The first use of a variable takes the next RAM address and encodes it;
      the table then maps the variable to it. */
  lemma NewVariable(st: EncodeState, name: string)
    requires IsName(name) && !Stored(st.table, name) && st.ram < 65536
    ensures var st' := EncodeStep(st, "@" + name);
      && st'.ram == st.ram + 1
      && st'.table == st.table[name := RamText(st.ram)]
      && st'.words == st.words + [PadTo(ToBase(st.ram, 2), 16)]
      && ValueIn(st'.words[|st.words|], 2) == st.ram
  {
    SymbolOfAddress(name);
    HexAddressReadsBack(st.ram);
    BinaryWord(st.ram);
    ModOfSum(0, 65536, st.ram);
  }

  /** A later use of a known symbol reuses its address and changes neither
      the table nor the next free RAM address. */
  lemma KnownSymbol(st: EncodeState, name: string)
    requires IsName(name) && Stored(st.table, name)
    ensures var st' := EncodeStep(st, "@" + name);
      && st'.ram == st.ram && st'.table == st.table
      && st'.words == st.words + [BinaryText(ParseHex(st.table[name]))]
  {
    SymbolOfAddress(name);
  }

  /** One step of pass two either leaves the table and the next free RAM
      address alone or adds one new symbol at that address and moves on. */
  lemma EncodeStepTable(st: EncodeState, c: string) returns (added: bool, s: string)
    requires NoEmptyAddress(st.table)
    ensures added ==>
      (s !in st.table && EncodeStep(st, c).table == st.table[s := RamText(st.ram)]
       && EncodeStep(st, c).ram == st.ram + 1)
    ensures !added ==> EncodeStep(st, c).table == st.table && EncodeStep(st, c).ram == st.ram
    ensures NoEmptyAddress(EncodeStep(st, c).table)
  {
    added, s := false, "";
    if TypeOf(c) == ACommand {
      s := Symbol(c).value;
      added := IsName(s) && !Stored(st.table, s);
    }
  }

  lemma AddedKey(m: map<string, string>, initial: set<string>, s: string, a: string)
    requires s !in m && m.Keys >= initial
    ensures |m[s := a].Keys - initial| == |m.Keys - initial| + 1
  {
    assert m[s := a].Keys - initial == (m.Keys - initial) + {s};
  }

  /** The allocation invariant of pass two: the table only grew, its
      addresses are not empty, and the next free RAM address is 16 plus the
      number of symbols added. */
  predicate Allocated(st: EncodeState, initial: set<string>) {
    st.table.Keys >= initial && NoEmptyAddress(st.table)
    && st.ram == 16 + |st.table.Keys - initial|
  }

  lemma AllocatedStart(t: map<string, string>)
    requires NoEmptyAddress(t)
    ensures Allocated(EncodeState([], t, 16), t.Keys)
  {
    assert t.Keys - t.Keys == {};
  }

  lemma AllocatedStep(st: EncodeState, c: string, initial: set<string>)
    requires Allocated(st, initial)
    ensures Allocated(EncodeStep(st, c), initial)
  {
    var added, s := EncodeStepTable(st, c);
    if added {
      AddedKey(st.table, initial, s, RamText(st.ram));
    }
  }

  /** Pass two allocates RAM 16, 17, … : the next free address is 16 plus the
      number of symbols it added to the table. */
  lemma RamCountsVariables(cmds: seq<string>, n: nat, t: map<string, string>)
    requires n <= |cmds| && NoEmptyAddress(t)
    ensures Allocated(EncodeAfter(cmds, n, t), t.Keys)
  {
    AllocatedStart(t);
    forall st, c | Allocated(st, t.Keys) ensures Allocated(EncodeStep(st, c), t.Keys) {
      AllocatedStep(st, c, t.Keys);
    }
    FoldPreserves(EncodeStep, cmds, n, EncodeState([], t, 16), st => Allocated(st, t.Keys));
  }

  /** Three fixed bits, seven comp bits and two three-bit groups make a
      16-bit binary word. */
  lemma WordBits(cb: string, x: string, y: string)
    requires |cb| == 7 && AllDigitsIn(cb, 2)
    requires |x| == 3 && AllDigitsIn(x, 2) && |y| == 3 && AllDigitsIn(y, 2)
    ensures |"111" + cb + x + y| == 16 && AllDigitsIn("111" + cb + x + y, 2)
  {
    AllDigitsInConcat("111", cb, 2);
    AllDigitsInConcat("111" + cb, x, 2);
    AllDigitsInConcat("111" + cb + x, y, 2);
  }

  /** A C-command `dest=comp` with a known computation encodes as `111`, the
      comp bits, the dest bits and `000`. */
  lemma AssignmentWord(d: string, cm: string)
    requires '=' !in d && ';' !in d && '=' !in cm && ';' !in cm
    requires !StartsWith(d + "=" + cm, "@") && !StartsWith(d + "=" + cm, "(")
    requires cm in KeysOf(CompTable)
    ensures TypeOf(d + "=" + cm) == CCommand
    ensures CWord(d + "=" + cm) == "111" + Comp(Some(cm)).value + Dest(Some(d)) + "000"
    ensures |CWord(d + "=" + cm)| == 16 && AllDigitsIn(CWord(d + "=" + cm), 2)
  {
    FieldsOfAssignment(d, cm);
    var cb, db := Comp(Some(cm)).value, Dest(Some(d));
    assert JsText(Jump(None)) == "000";
    assert CWord(d + "=" + cm) == "111" + cb + db + "000";
    WordBits(cb, db, "000");
  }

  /** A C-command `comp;jump` with known mnemonics encodes as `111`, the comp
      bits, `000` and the jump bits. */
  lemma JumpWord(cm: string, j: string)
    requires ';' !in cm && ';' !in j
    requires !StartsWith(cm + ";" + j, "@") && !StartsWith(cm + ";" + j, "(")
    requires cm in KeysOf(CompTable) && j in KeysOf(JumpTable)
    ensures TypeOf(cm + ";" + j) == CCommand
    ensures CWord(cm + ";" + j) == "111" + Comp(Some(cm)).value + "000" + Jump(Some(j)).value
    ensures |CWord(cm + ";" + j)| == 16 && AllDigitsIn(CWord(cm + ";" + j), 2)
  {
    FieldsOfJump(cm, j);
    assert j != "";
    var cb, jb := Comp(Some(cm)).value, Jump(Some(j)).value;
    assert Dest(None) == "000";
    assert CWord(cm + ";" + j) == "111" + cb + "000" + jb;
    WordBits(cb, "000", jb);
  }

  // ---------------------------------------------------------------------
  // The driver

  /** The body of the first loop of `assembler` on command `c`. */
  method LabelCommand(c: string, rom: nat, symbolTable: SymbolTable) returns (romAddress: nat)
    modifies symbolTable
    ensures LabelState(romAddress, symbolTable.table) == LabelStep(LabelState(rom, old(symbolTable.table)), c)
  {
    romAddress := rom;
    if TypeOf(c) == ACommand || TypeOf(c) == CCommand {
      romAddress := romAddress + 1;
    } else {
      var symbol := Symbol(c).value;
      if !symbolTable.Contains(symbol) {
        var address := PadTo(ToBase(romAddress, 16), 6);
        symbolTable.AddEntry(symbol, address);
      }
    }
  }

  /** The body of the second loop of `assembler` on command `c`. */
  method EncodeCommand(c: string, words: seq<string>, ram: nat, symbolTable: SymbolTable)
    returns (machineCodes: seq<string>, ramAddress: nat)
    modifies symbolTable
    ensures EncodeState(machineCodes, symbolTable.table, ramAddress)
      == EncodeStep(EncodeState(words, old(symbolTable.table), ram), c)
  {
    machineCodes, ramAddress := words, ram;
    if TypeOf(c) == CCommand {
      var destMnemonic := DestField(c).value;
      var compMnemonic := CompField(c).value;
      var jumpMnemonic := JumpField(c).value;
      var dest := Dest(destMnemonic);
      var comp := Comp(compMnemonic);
      var jump := Jump(jumpMnemonic);
      machineCodes := machineCodes + ["111" + JsText(comp) + dest + JsText(jump)];
    } else if TypeOf(c) == ACommand {
      var symbol := Symbol(c).value;
      var machineCode;
      if IsName(symbol) {
        var address;
        if symbolTable.Contains(symbol) {
          address := symbolTable.GetAddress(symbol).value;
        } else {
          address := "0x" + PadTo(ToBase(ramAddress, 16), 4);
          symbolTable.AddEntry(symbol, address);
          ramAddress := ramAddress + 1;
        }
        machineCode := PadTo(NumberText(ParseHex(address), 2), 16);
      } else {
        machineCode := PadTo(NumberText(ParseDecimal(symbol), 2), 16);
      }
      machineCodes := machineCodes + [machineCode];
    }
  }

  /** The first loop of `assembler`: one pass over the program that counts
      the ROM address of each command and binds each new label to it. */
  method LabelPass(parser: Parser, symbolTable: SymbolTable) returns (romAddress: nat)
    requires parser.Valid() && parser.lineCounter == 0
    requires parser != symbolTable as object
    modifies parser, symbolTable
    ensures parser.Valid()
    ensures parser.lineCounter == |parser.instructions|
    ensures LabelState(romAddress, symbolTable.table)
      == LabelsAfter(Commands(parser.instructions), |parser.instructions|, old(symbolTable.table))
  {
    romAddress := 0;
    ghost var ins := parser.instructions;
    ghost var cmds := Commands(ins);
    ghost var t0 := symbolTable.table;
    ghost var n := 0;
    while parser.HasMoreCommands()
      invariant parser.Valid() && parser.instructions == ins
      invariant n == parser.lineCounter
      invariant LabelState(romAddress, symbolTable.table) == LabelsAfter(cmds, n, t0)
      decreases |ins| - parser.lineCounter
    {
      assert parser.currentCommand.value == cmds[n];
      ghost var before := LabelState(romAddress, symbolTable.table);
      romAddress := LabelCommand(parser.currentCommand.value, romAddress, symbolTable);
      LabelsAfterNext(cmds, n, t0, before, LabelState(romAddress, symbolTable.table));
      parser.Advance();
      n := n + 1;
    }
    assert n == |ins|;
    ghost var final := LabelsAfter(cmds, n, t0);
    assert romAddress == final.rom && symbolTable.table == final.table;
  }

  /** The second loop of `assembler`: one pass that writes a machine word for
      each A- and C-command and allocates RAM from 16 for new variables. */
  method EncodePass(parser: Parser, symbolTable: SymbolTable) returns (machineCodes: seq<string>)
    requires parser.Valid() && parser.lineCounter == 0
    requires parser != symbolTable as object
    modifies parser, symbolTable
    ensures parser.Valid()
    ensures parser.lineCounter == |parser.instructions|
    ensures machineCodes == EncodeAfter(Commands(parser.instructions), |parser.instructions|, old(symbolTable.table)).words
    ensures symbolTable.table == EncodeAfter(Commands(parser.instructions), |parser.instructions|, old(symbolTable.table)).table
  {
    ghost var ins := parser.instructions;
    ghost var cmds := Commands(ins);
    ghost var t0 := symbolTable.table;
    var ramAddress := 16;
    machineCodes := [];
    ghost var n := 0;
    while parser.HasMoreCommands()
      invariant parser.Valid() && parser.instructions == ins
      invariant n == parser.lineCounter
      invariant EncodeState(machineCodes, symbolTable.table, ramAddress) == EncodeAfter(cmds, n, t0)
      decreases |ins| - parser.lineCounter
    {
      assert parser.currentCommand.value == cmds[n];
      ghost var before := EncodeState(machineCodes, symbolTable.table, ramAddress);
      machineCodes, ramAddress := EncodeCommand(parser.currentCommand.value, machineCodes, ramAddress, symbolTable);
      EncodeAfterNext(cmds, n, t0, before, EncodeState(machineCodes, symbolTable.table, ramAddress));
      parser.Advance();
      n := n + 1;
    }
    assert n == |ins|;
    ghost var final := EncodeAfter(cmds, n, t0);
    assert machineCodes == final.words && symbolTable.table == final.table;
  }

  /** `assembler` on the text of a `.asm` file: the machine words it writes,
      one per element. */
  method Assemble(content: string) returns (machineCodes: seq<string>)
    ensures machineCodes == MachineCode(content)
    ensures |machineCodes| == LabelsAfter(Commands(Instructions(content)), |Instructions(content)|, Predefined()).rom
  {
    var parser := new Parser(content);
    var symbolTable := new SymbolTable();
    ghost var ins := parser.instructions;
    ghost var cmds := Commands(ins);
    var romAddress := LabelPass(parser, symbolTable);
    ghost var labels := symbolTable.table;

    parser.lineCounter := 0;
    parser.currentCommand := if |parser.instructions| > 0 then Some(parser.instructions[0]) else None;

    machineCodes := EncodePass(parser, symbolTable);
    OneWordPerCommand(cmds, |ins|, labels);
    PredefinedAddresses();
    RomCountsCommands(cmds, |ins|, Predefined());
  }
}
