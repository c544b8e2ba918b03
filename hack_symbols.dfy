/** The symbol table of the Hack assembler (projects/06/assembler/symbolTable.js):
    a dictionary from symbols to address texts, seeded with the predefined
    symbols of the Hack platform. */
module HackSymbols {
  import opened Wrappers
  import opened Text

  /** The table the constructor starts from, with the addresses as the source
      writes them. */
  function Predefined(): map<string, string> {
    map[
      "SP" := "0x0000", "LCL" := "0x0001", "ARG" := "0x0002",
      "THIS" := "0x0003", "THAT" := "0x0004",
      "R0" := "0x0000", "R1" := "0x0001", "R2" := "0x0002", "R3" := "0x0003",
      "R4" := "0x0004", "R5" := "0x0005", "R6" := "0x0006", "R7" := "0x0007",
      "R8" := "0x0008", "R9" := "0x0009", "R10" := "0x000a", "R11" := "0x000b",
      "R12" := "0x000c", "R13" := "0x000d", "R14" := "0x000e", "R15" := "0x000f",
      "SCREEN" := "0x4000", "KBD" := "0x6000"
    ]
  }

  /** The Hack platform's predefined symbols and the RAM words they name:
      the five VM pointers, the sixteen virtual registers, the screen map
      and the keyboard register. */
  const Platform: map<string, nat> := map[
    "SP" := 0, "LCL" := 1, "ARG" := 2, "THIS" := 3, "THAT" := 4,
    "R0" := 0, "R1" := 1, "R2" := 2, "R3" := 3, "R4" := 4, "R5" := 5,
    "R6" := 6, "R7" := 7, "R8" := 8, "R9" := 9, "R10" := 10, "R11" := 11,
    "R12" := 12, "R13" := 13, "R14" := 14, "R15" := 15,
    "SCREEN" := 16384, "KBD" := 24576
  ]

  /** The constructor's table names exactly the platform symbols, and every
      address text reads back through `parseInt(…, 16)` as the platform's
      address. */
  lemma PredefinedAddresses()
    ensures Predefined().Keys == Platform.Keys
    ensures forall k | k in Predefined() :: ParseHex(Predefined()[k]) == Some(Platform[k])
  {
    forall k | k in Predefined() ensures ParseHex(Predefined()[k]) == Some(Platform[k]) {
      if k == "SP" || k == "LCL" || k == "ARG" || k == "THIS" || k == "THAT" {
        PointerAddress(k);
      } else if k == "SCREEN" || k == "KBD" {
        DeviceAddress(k);
      } else if |k| == 2 {
        RegisterAddress(k);
      } else {
        HighRegisterAddress(k);
      }
    }
  }

  lemma PointerAddress(k: string)
    requires k == "SP" || k == "LCL" || k == "ARG" || k == "THIS" || k == "THAT"
    ensures ParseHex(Predefined()[k]) == Some(Platform[k])
  {
    LowAddress(Predefined()[k]);
  }

  lemma DeviceAddress(k: string)
    requires k == "SCREEN" || k == "KBD"
    ensures ParseHex(Predefined()[k]) == Some(Platform[k])
  {
    var a := Predefined()[k];
    HexAddress(a);
    ValueOfShort(a[2..], 16);
    assert DigitValue('4') == 4 && DigitValue('6') == 6 && DigitValue('0') == 0;
  }

  lemma RegisterAddress(k: string)
    requires k in Predefined() && k[0] == 'R' && |k| == 2
    ensures ParseHex(Predefined()[k]) == Some(Platform[k])
  {
    LowAddress(Predefined()[k]);
  }

  lemma HighRegisterAddress(k: string)
    requires k in Predefined() && k[0] == 'R' && |k| == 3
    ensures ParseHex(Predefined()[k]) == Some(Platform[k])
  {
    LowAddress(Predefined()[k]);
  }

  /** An address below 16 is `0x000` and one hexadecimal digit. */
  lemma LowAddress(a: string)
    requires |a| == 6 && a[..5] == "0x000" && IsDigitIn(a[5], 16)
    ensures ParseHex(a) == Some(DigitValue(a[5]))
  {
    assert a[..2] == "0x" && a[2..] == "000" + [a[5]];
    assert StartsWith(a, "0x");
    assert AllDigitsIn(a[2..], 16);
    DigitPrefixOfDigits(a[2..], 16);
    ValueOfShort(a[2..], 16);
  }

  /** Each predefined address text is `0x` and four hexadecimal digits. */
  lemma HexAddress(a: string)
    requires a in Predefined().Values
    ensures |a| == 6 && a[..2] == "0x" && AllDigitsIn(a[2..], 16)
    ensures ParseHex(a) == Some(ValueIn(a[2..], 16))
  {
    assert StartsWith(a, "0x");
    DigitPrefixOfDigits(a[2..], 16);
  }

  /** `contains`: the stored address is present and not empty (JavaScript truthiness). */
  predicate Stored(table: map<string, string>, symbol: string) {
    symbol in table && table[symbol] != ""
  }

  class SymbolTable {
    var table: map<string, string>

    constructor ()
      ensures table == Predefined()
    {
      table := Predefined();
    }

    /** `addEntry`: stores `address`, replacing any earlier entry. */
    method AddEntry(symbol: string, address: string)
      modifies this
      ensures table == old(table)[symbol := address]
      ensures GetAddress(symbol) == Some(address)
      ensures forall s :: s != symbol ==> GetAddress(s) == old(GetAddress(s))
    {
      table := table[symbol := address];
    }

    /** `contains`: the symbol has an address and that address is not the
        empty text, which JavaScript reads as false. */
    predicate Contains(symbol: string)
      reads this
      ensures Contains(symbol) <==> GetAddress(symbol).Some? && GetAddress(symbol).value != ""
    {
      Stored(table, symbol)
    }

    /** `getAddress`: the stored address, `undefined` for an unknown symbol. */
    function GetAddress(symbol: string): (r: Option<string>)
      reads this
      ensures r.Some? <==> symbol in table
      ensures r.Some? ==> r.value == table[symbol]
    {
      if symbol in table then Some(table[symbol]) else None
    }
  }
}
