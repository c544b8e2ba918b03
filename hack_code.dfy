/** The bit-field encoder of the Hack assembler (projects/06/assembler/code.js):
    the three fields of a C-instruction become the `dest`, `comp` and `jump`
    bit groups of Hack machine language. */
module HackCode {
  import opened Wrappers
  import opened Text

  /** A JavaScript object literal used as a dictionary: its entries in
      order. */
  type Table = seq<(string, string)>

  /** The keys of a table. */
  function KeysOf(t: Table): set<string> {
    set i | 0 <= i < |t| :: t[i].0
  }

  /** `dict[key]`: the value of the first entry for `key`, or `undefined`. */
  function Lookup(t: Table, key: string): (r: Option<string>)
    ensures r.Some? ==> (key, r.value) in t
    ensures r.None? ==> key !in KeysOf(t)
    decreases |t|
  {
    if t == [] then None
    else if t[0].0 == key then Some(t[0].1)
    else Lookup(t[1..], key)
  }

  /** A lookup finds a value exactly for the keys of the table, and the value
      it finds is stored with that key. */
  lemma {:induction false} LookupSpec(t: Table, key: string)
    ensures Lookup(t, key).Some? <==> key in KeysOf(t)
    ensures Lookup(t, key).Some? ==> exists i | 0 <= i < |t| :: t[i] == (key, Lookup(t, key).value)
    decreases |t|
  {
    if t != [] && t[0].0 != key {
      LookupSpec(t[1..], key);
      assert KeysOf(t) == {t[0].0} + KeysOf(t[1..]) by {
        forall k | k in KeysOf(t) ensures k in {t[0].0} + KeysOf(t[1..]) {
          var i :| 0 <= i < |t| && t[i].0 == k;
          if i > 0 {
            assert t[1..][i - 1].0 == k;
          }
        }
        forall k | k in KeysOf(t[1..]) ensures k in KeysOf(t) {
          var i :| 0 <= i < |t[1..]| && t[1..][i].0 == k;
          assert t[i + 1].0 == k;
        }
      }
      var r := Lookup(t, key);
      if r.Some? {
        var i :| 0 <= i < |t[1..]| && t[1..][i] == (key, r.value);
        assert t[i + 1] == (key, r.value);
      }
    } else if t != [] {
      assert t[0] == (key, t[0].1);
    }
  }

  /** `compDict`: the 28 computations of the Hack ALU and their `a c1..c6` bits. */
  const CompTable: Table := [
    ("0", "0101010"), ("1", "0111111"), ("-1", "0111010"),
    ("D", "0001100"), ("A", "0110000"),
    ("!D", "0001101"), ("!A", "0110001"), ("-D", "0001111"), ("-A", "0110011"),
    ("D+1", "0011111"), ("A+1", "0110111"), ("D-1", "0001110"), ("A-1", "0110010"),
    ("D+A", "0000010"), ("D-A", "0010011"), ("A-D", "0000111"),
    ("D&A", "0000000"), ("D|A", "0010101"),
    ("M", "1110000"), ("!M", "1110001"), ("-M", "1110011"),
    ("M+1", "1110111"), ("M-1", "1110010"),
    ("D+M", "1000010"), ("D-M", "1010011"), ("M-D", "1000111"),
    ("D&M", "1000000"), ("D|M", "1010101")
  ]

  /** `jumpDict`: the seven jump conditions and their `j1 j2 j3` bits. */
  const JumpTable: Table := [
    ("JGT", "001"), ("JEQ", "010"), ("JGE", "011"), ("JLT", "100"),
    ("JNE", "101"), ("JLE", "110"), ("JMP", "111")
  ]

  function Bit(b: bool): char {
    if b then '1' else '0'
  }

  /** A mnemonic that JavaScript treats as false: `null`, `undefined` or the empty text. */
  predicate Missing(m: Option<string>) {
    m.None? || m.value == ""
  }

  /** `Code.dest`: `000` for a missing mnemonic, otherwise one bit each for
      whether it names A, D and M. */
  function Dest(m: Option<string>): (r: string)
    ensures |r| == 3 && AllDigitsIn(r, 2)
    ensures r[0] == '1' <==> (m.Some? && 'A' in m.value)
    ensures r[1] == '1' <==> (m.Some? && 'D' in m.value)
    ensures r[2] == '1' <==> (m.Some? && 'M' in m.value)
  {
    if Missing(m) then "000"
    else
      var v := m.value;
      IndexOfChar(v, 'A');
      IndexOfChar(v, 'D');
      IndexOfChar(v, 'M');
      [Bit(Contains(v, "A")), Bit(Contains(v, "D")), Bit(Contains(v, "M"))]
  }

  /** The order of the registers in a dest mnemonic does not matter:
      `MD` and `DM` encode alike. */
  lemma DestIgnoresOrder(m1: string, m2: string)
    requires forall c :: c in "ADM" ==> (c in m1 <==> c in m2)
    ensures Dest(Some(m1)) == Dest(Some(m2))
  {
    var r1, r2 := Dest(Some(m1)), Dest(Some(m2));
    assert 'A' in "ADM" && 'D' in "ADM" && 'M' in "ADM";
    assert r1[0] == r2[0] && r1[1] == r2[1] && r1[2] == r2[2];
  }

  /** `Code.comp`: the table entry, or `undefined` for an unknown mnemonic. */
  function Comp(m: Option<string>): (r: Option<string>)
    ensures r.Some? <==> m.Some? && m.value in KeysOf(CompTable)
    ensures r.Some? ==> exists i | 0 <= i < |CompTable| :: CompTable[i] == (m.value, r.value)
    ensures r.Some? ==> |r.value| == 7 && AllDigitsIn(r.value, 2)
  {
    CompCodes();
    if m.Some? then LookupSpec(CompTable, m.value); Lookup(CompTable, m.value) else None
  }

  /** Every comp code has seven bits. */
  lemma CompCodes()
    ensures forall i | 0 <= i < |CompTable| :: |CompTable[i].1| == 7 && AllDigitsIn(CompTable[i].1, 2)
  {
  }

  /** The leading `a` bit of a comp code is set exactly when the computation
      reads M. */
  lemma CompABit()
    ensures forall i | 0 <= i < |CompTable| :: (CompTable[i].1[0] == '1' <==> 'M' in CompTable[i].0)
  {
  }

  /** No computation reads both A and M, so the `a` bit picks one of them. */
  lemma CompReadsOneOf()
    ensures forall i | 0 <= i < |CompTable| :: !('A' in CompTable[i].0 && 'M' in CompTable[i].0)
  {
  }

  /** No key appears twice in either table, so each mnemonic has one code. */
  lemma TablesHaveDistinctKeys()
    ensures forall i, j | 0 <= i < j < |CompTable| :: CompTable[i].0 != CompTable[j].0
    ensures forall i, j | 0 <= i < j < |JumpTable| :: JumpTable[i].0 != JumpTable[j].0
  {
  }

  /** `Code.jump`: `000` for a missing mnemonic, the table entry for a known
      one, `undefined` otherwise. */
  function Jump(m: Option<string>): (r: Option<string>)
    ensures Missing(m) ==> r == Some("000")
    ensures !Missing(m) ==> (r.Some? <==> m.value in KeysOf(JumpTable))
    ensures !Missing(m) && r.Some? ==> exists i | 0 <= i < |JumpTable| :: JumpTable[i] == (m.value, r.value)
    ensures r.Some? ==> |r.value| == 3 && AllDigitsIn(r.value, 2)
  {
    JumpCodes();
    if Missing(m) then Some("000") else LookupSpec(JumpTable, m.value); Lookup(JumpTable, m.value)
  }

  /** What each jump mnemonic means for the ALU output `v`, in the words of
      the Hack machine language: greater, equal, greater-or-equal, … */
  predicate JumpsOn(m: string, v: int) {
    match m
    case "JGT" => v > 0
    case "JEQ" => v == 0
    case "JGE" => v >= 0
    case "JLT" => v < 0
    case "JNE" => v != 0
    case "JLE" => v <= 0
    case "JMP" => true
    case _ => false
  }

  /** The `j1 j2 j3` bits of a jump code say whether the jump is taken on a
      negative, a zero and a positive output, in that order. */
  lemma JumpCodes()
    ensures forall i | 0 <= i < |JumpTable| :: |JumpTable[i].1| == 3 && AllDigitsIn(JumpTable[i].1, 2)
    ensures forall i | 0 <= i < |JumpTable| ::
      && (JumpTable[i].1[0] == '1' <==> JumpsOn(JumpTable[i].0, -1))
      && (JumpTable[i].1[1] == '1' <==> JumpsOn(JumpTable[i].0, 0))
      && (JumpTable[i].1[2] == '1' <==> JumpsOn(JumpTable[i].0, 1))
  {
  }
}
