/** The scoped symbol table of the Jack compiler
    (projects/11/JackAnalyzer/symbolTable.js): four dictionaries from names
    to entries, two for the class scope (static and field) and two for the
    subroutine scope (argument and var). Each entry records the type, the
    kind and a running index within its kind. The tables are first modelled
    as one value, `Scopes`, with the operations as its functions; the class
    `SymbolTable` holds the four dictionaries as fields and is specified by
    those functions. */
module JackSymbolTable {
  import opened Wrappers
  import opened Text

  /** The values of `KIND` (projects/11/JackCompiler/constants.js). */
  const Static: string := "static"
  const Field: string := "field"
  const Argument: string := "argument"
  const Var: string := "var"
  const NoKind: string := "none"

  /** The four kinds `define` and `varCount` accept. */
  predicate IsKind(kind: string) {
    kind == Static || kind == Field || kind == Argument || kind == Var
  }

  /** `{ type, kind, index }`. */
  datatype Entry = Entry(typ: string, kind: string, index: nat)

  type Table = map<string, Entry>

  /** The four dictionaries, and the operations of `SymbolTable` on them. */
  datatype Scopes = Scopes(statics: Table, fields: Table, args: Table, vars: Table) {

    /** `startSubroutine`: a fresh subroutine scope. */
    function StartSubroutine(): Scopes {
      this.(args := map[], vars := map[])
    }

    /** The table that holds names of a kind. */
    function TableOf(kind: string): Table
      requires IsKind(kind)
    {
      if kind == Static then statics
      else if kind == Field then fields
      else if kind == Argument then args
      else vars
    }

    /** `varCount`: the number of names of a kind; other kinds throw. */
    function VarCount(kind: string): Result<nat> {
      if IsKind(kind) then Ok(|TableOf(kind)|)
      else Err("invalid kind for varCount, kind: " + kind)
    }

    /** `define`: stores the name in the table of its kind with the count
        of that table, taken before the store, as its index; other kinds
        throw before any table changes. */
    function Define(name: string, typ: string, kind: string): Result<Scopes> {
      if kind == Static then Ok(this.(statics := statics[name := Entry(typ, kind, |statics|)]))
      else if kind == Field then Ok(this.(fields := fields[name := Entry(typ, kind, |fields|)]))
      else if kind == Argument then Ok(this.(args := args[name := Entry(typ, kind, |args|)]))
      else if kind == Var then Ok(this.(vars := vars[name := Entry(typ, kind, |vars|)]))
      else Err("invalid kind for define, kind: " + kind)
    }

    /** The entry `name in table` finds first: argument, var, static,
        field. */
    function Lookup(name: string): Option<Entry> {
      if name in args then Some(args[name])
      else if name in vars then Some(vars[name])
      else if name in statics then Some(statics[name])
      else if name in fields then Some(fields[name])
      else None
    }

    /** `kindOf`: the kind of the entry found, `none` for an unknown name. */
    function KindOf(name: string): string {
      match Lookup(name)
      case Some(e) => e.kind
      case None => NoKind
    }

    /** `typeOf`: the type of the entry found; an unknown name throws. */
    function TypeOf(name: string): Result<string> {
      match Lookup(name)
      case Some(e) => Ok(e.typ)
      case None => Err("invalid name for typeOf, name: " + name)
    }

    /** `indexOf`: the index of the entry found; an unknown name throws. */
    function IndexOf(name: string): Result<nat> {
      match Lookup(name)
      case Some(e) => Ok(e.index)
      case None => Err("invalid name for indexOf, name: " + name)
    }
  }

  /** The constructor: four empty tables. */
  const Empty: Scopes := Scopes(map[], map[], map[], map[])

  // ---------------------------------------------------------------------
  // Properties

  /** `startSubroutine` empties the subroutine scope and keeps the class
      scope, so afterwards a name is found exactly as in the class scope. */
  lemma StartSubroutineScope(t: Scopes, name: string)
    ensures var r := t.StartSubroutine();
      && r.VarCount(Argument) == Ok(0) && r.VarCount(Var) == Ok(0)
      && r.VarCount(Static) == t.VarCount(Static) && r.VarCount(Field) == t.VarCount(Field)
      && r.Lookup(name) == (if name in t.statics then Some(t.statics[name])
                             else if name in t.fields then Some(t.fields[name]) else None)
  {
  }

  /** A defined name gets the count of its kind taken before the call as
      its index; the tables of the other kinds are unchanged. */
  lemma DefineStores(t: Scopes, name: string, typ: string, kind: string)
    requires IsKind(kind)
    ensures t.Define(name, typ, kind).Ok?
    ensures var r := t.Define(name, typ, kind).value;
      && r.TableOf(kind) == t.TableOf(kind)[name := Entry(typ, kind, t.VarCount(kind).value)]
      && forall k :: IsKind(k) && k != kind ==> r.TableOf(k) == t.TableOf(k)
  {
  }

  /** A fresh name raises the count of its kind by one, a name already in
      that table leaves it as it was, and no other count moves. */
  lemma DefineCounts(t: Scopes, name: string, typ: string, kind: string)
    requires IsKind(kind)
    ensures var r := t.Define(name, typ, kind).value;
      && r.VarCount(kind).value == t.VarCount(kind).value + (if name in t.TableOf(kind) then 0 else 1)
      && forall k :: IsKind(k) && k != kind ==> r.VarCount(k) == t.VarCount(k)
  {
    DefineStores(t, name, typ, kind);
    var table := t.TableOf(kind);
    var e := Entry(typ, kind, |table|);
    if name in table {
      assert table[name := e].Keys == table.Keys;
    } else {
      assert table[name := e].Keys == table.Keys + {name};
    }
  }

  /** A kind outside the four throws in both `define` and `varCount`. */
  lemma InvalidKind(t: Scopes, name: string, typ: string, kind: string)
    requires !IsKind(kind)
    ensures t.Define(name, typ, kind) == Err("invalid kind for define, kind: " + kind)
    ensures t.VarCount(kind) == Err("invalid kind for varCount, kind: " + kind)
  {
  }

  /** A name of the subroutine scope shadows the class scope: what is found
      for it does not depend on the static and field tables. */
  lemma SubroutineScopeShadows(t: Scopes, name: string, statics: Table, fields: Table)
    requires name in t.args || name in t.vars
    ensures t.Lookup(name) == t.(statics := statics, fields := fields).Lookup(name)
    ensures t.Lookup(name) == Some(if name in t.args then t.args[name] else t.vars[name])
  {
  }

  /** An unknown name has kind `none`, while `typeOf` and `indexOf` throw;
      a known one has the kind, type and index of the entry found. */
  lemma LookupResults(t: Scopes, name: string)
    ensures t.Lookup(name).None? <==> t.KindOf(name) == NoKind && t.TypeOf(name).Err?
    ensures t.Lookup(name).None? <==> t.IndexOf(name).Err?
    ensures t.Lookup(name).None? ==>
      t.TypeOf(name) == Err("invalid name for typeOf, name: " + name) &&
      t.IndexOf(name) == Err("invalid name for indexOf, name: " + name)
    ensures t.Lookup(name).Some? ==> var e := t.Lookup(name).value;
      t.KindOf(name) == e.kind && t.TypeOf(name) == Ok(e.typ) && t.IndexOf(name) == Ok(e.index)
  {
  }

  /** The tables searched before the table of a kind. */
  predicate SearchedBefore(t: Scopes, name: string, kind: string)
    requires IsKind(kind)
  {
    if kind == Argument then false
    else if kind == Var then name in t.args
    else if kind == Static then name in t.args || name in t.vars
    else name in t.args || name in t.vars || name in t.statics
  }

  /** After `define(name, typ, kind)`, when no table searched earlier holds
      the name, the lookups give the kind, the type and the index just
      assigned. */
  lemma DefineThenLookup(t: Scopes, name: string, typ: string, kind: string)
    requires IsKind(kind) && !SearchedBefore(t, name, kind)
    ensures var r := t.Define(name, typ, kind).value;
      && r.KindOf(name) == kind && r.TypeOf(name) == Ok(typ)
      && r.IndexOf(name) == t.VarCount(kind)
  {
    DefineStores(t, name, typ, kind);
  }

  /** Defining the names of one declaration in turn. */
  function DefineAll(t: Scopes, names: seq<string>, typ: string, kind: string): Result<Scopes>
    decreases |names|
  {
    if names == [] then Ok(t)
    else
      var t1 :- t.Define(names[0], typ, kind);
      DefineAll(t1, names[1..], typ, kind)
  }

  /** Fresh, distinct names of one kind get the indices n, n+1, ... in the
      order they are defined, where n is the count before the first. */
  lemma {:induction false} DefineAllIndices(t: Scopes, names: seq<string>, typ: string, kind: string)
    requires IsKind(kind)
    requires forall i, j :: 0 <= i < j < |names| ==> names[i] != names[j]
    requires forall i :: 0 <= i < |names| ==> names[i] !in t.TableOf(kind)
    ensures DefineAll(t, names, typ, kind).Ok?
    ensures var r := DefineAll(t, names, typ, kind).value;
      && |r.TableOf(kind)| == |t.TableOf(kind)| + |names|
      && forall i :: 0 <= i < |names| ==>
           names[i] in r.TableOf(kind) && r.TableOf(kind)[names[i]] == Entry(typ, kind, |t.TableOf(kind)| + i)
    decreases |names|
  {
    if names != [] {
      DefineStores(t, names[0], typ, kind);
      DefineCounts(t, names[0], typ, kind);
      var t1 := t.Define(names[0], typ, kind).value;
      var rest := names[1..];
      forall i | 0 <= i < |rest|
        ensures rest[i] !in t1.TableOf(kind)
      {
        assert rest[i] == names[i + 1];
      }
      DefineAllIndices(t1, rest, typ, kind);
      var r := DefineAll(t1, rest, typ, kind).value;
      forall i | 0 <= i < |names|
        ensures names[i] in r.TableOf(kind) && r.TableOf(kind)[names[i]] == Entry(typ, kind, |t.TableOf(kind)| + i)
      {
        if i == 0 {
          DefineAllKeeps(t1, rest, typ, kind, names[0]);
        } else {
          assert names[i] == rest[i - 1];
        }
      }
    }
  }

  /** Defining names that differ from `n` leaves the entry of `n`. */
  lemma {:induction false} DefineAllKeeps(t: Scopes, names: seq<string>, typ: string, kind: string, n: string)
    requires IsKind(kind) && n !in names
    ensures DefineAll(t, names, typ, kind).Ok?
    ensures n in t.TableOf(kind) ==>
      var r := DefineAll(t, names, typ, kind).value;
      n in r.TableOf(kind) && r.TableOf(kind)[n] == t.TableOf(kind)[n]
    decreases |names|
  {
    if names != [] {
      DefineStores(t, names[0], typ, kind);
      var t1 := t.Define(names[0], typ, kind).value;
      assert forall x :: x in names[1..] ==> x in names;
      DefineAllKeeps(t1, names[1..], typ, kind, n);
    }
  }

  /** Defining declarations of one kind in turn, each with its own type:
      the pairs are (type, name). */
  function DefineEach(t: Scopes, decls: seq<(string, string)>, kind: string): Result<Scopes>
    decreases |decls|
  {
    if decls == [] then Ok(t)
    else
      var t1 :- t.Define(decls[0].1, decls[0].0, kind);
      DefineEach(t1, decls[1..], kind)
  }

  /** Defining declarations whose names differ from `n` leaves the entry of `n`. */
  lemma {:induction false} DefineEachKeeps(t: Scopes, decls: seq<(string, string)>, kind: string, n: string)
    requires IsKind(kind) && forall i :: 0 <= i < |decls| ==> decls[i].1 != n
    ensures DefineEach(t, decls, kind).Ok?
    ensures n in t.TableOf(kind) ==>
      var r := DefineEach(t, decls, kind).value;
      n in r.TableOf(kind) && r.TableOf(kind)[n] == t.TableOf(kind)[n]
    decreases |decls|
  {
    if decls != [] {
      DefineStores(t, decls[0].1, decls[0].0, kind);
      var t1 := t.Define(decls[0].1, decls[0].0, kind).value;
      var rest := decls[1..];
      forall i | 0 <= i < |rest| ensures rest[i].1 != n {
        assert rest[i] == decls[i + 1];
      }
      DefineEachKeeps(t1, rest, kind, n);
    }
  }

  /** Fresh, distinct names of one kind get the indices n, n+1, ... in the
      order they are defined, each with its own type, where n is the count
      before the first. */
  lemma {:induction false} DefineEachIndices(t: Scopes, decls: seq<(string, string)>, kind: string)
    requires IsKind(kind)
    requires forall i, j :: 0 <= i < j < |decls| ==> decls[i].1 != decls[j].1
    requires forall i :: 0 <= i < |decls| ==> decls[i].1 !in t.TableOf(kind)
    ensures DefineEach(t, decls, kind).Ok?
    ensures var r := DefineEach(t, decls, kind).value;
      && |r.TableOf(kind)| == |t.TableOf(kind)| + |decls|
      && forall i :: 0 <= i < |decls| ==>
           decls[i].1 in r.TableOf(kind) && r.TableOf(kind)[decls[i].1] == Entry(decls[i].0, kind, |t.TableOf(kind)| + i)
    decreases |decls|
  {
    if decls != [] {
      var d := decls[0];
      DefineStores(t, d.1, d.0, kind);
      DefineCounts(t, d.1, d.0, kind);
      var t1 := t.Define(d.1, d.0, kind).value;
      var rest := decls[1..];
      forall i | 0 <= i < |rest|
        ensures rest[i].1 !in t1.TableOf(kind)
      {
        assert rest[i] == decls[i + 1];
      }
      forall i, j | 0 <= i < j < |rest|
        ensures rest[i].1 != rest[j].1
      {
        assert rest[i] == decls[i + 1] && rest[j] == decls[j + 1];
      }
      DefineEachIndices(t1, rest, kind);
      var r := DefineEach(t1, rest, kind).value;
      forall i | 0 <= i < |decls|
        ensures decls[i].1 in r.TableOf(kind) && r.TableOf(kind)[decls[i].1] == Entry(decls[i].0, kind, |t.TableOf(kind)| + i)
      {
        if i == 0 {
          forall k | 0 <= k < |rest| ensures rest[k].1 != d.1 {
            assert rest[k] == decls[k + 1];
          }
          DefineEachKeeps(t1, rest, kind, d.1);
        } else {
          assert decls[i] == rest[i - 1];
        }
      }
    }
  }

  /** Defining a name again overwrites its entry with the current count of
      its kind as index, and leaves the count where it was, so the next
      fresh name of that kind gets the same index. */
  lemma RedefinitionSharesIndex(t: Scopes, a: string, b: string, typ: string, kind: string)
    requires IsKind(kind) && a in t.TableOf(kind) && b !in t.TableOf(kind)
    ensures var r := t.Define(a, typ, kind).value;
      var r2 := r.Define(b, typ, kind).value;
      && r2.TableOf(kind)[a].index == r2.TableOf(kind)[b].index == |t.TableOf(kind)|
  {
    DefineStores(t, a, typ, kind);
    DefineCounts(t, a, typ, kind);
    var r := t.Define(a, typ, kind).value;
    DefineStores(r, b, typ, kind);
    assert a != b;
  }

  // ---------------------------------------------------------------------
  // The class

  /** `SymbolTable`: the four dictionaries as fields. */
  class SymbolTable {
    var staticTable: Table
    var fieldTable: Table
    var argTable: Table
    var varTable: Table

    /** The four fields as one value. */
    function Tables(): Scopes
      reads this
    {
      Scopes(staticTable, fieldTable, argTable, varTable)
    }

    constructor ()
      ensures Tables() == Empty
    {
      staticTable, fieldTable, argTable, varTable := map[], map[], map[], map[];
    }

    /** `startSubroutine`: replaces the argument and var dictionaries. */
    method StartSubroutine()
      modifies this
      ensures Tables() == old(Tables()).StartSubroutine()
      ensures argTable == map[] && varTable == map[]
      ensures staticTable == old(staticTable) && fieldTable == old(fieldTable)
    {
      argTable := map[];
      varTable := map[];
    }

    /** `define`: on a valid kind the new tables are those of `Define`; on
        any other kind it throws and changes nothing. */
    method Define(name: string, typ: string, kind: string) returns (r: Result<()>)
      modifies this
      ensures r.Ok? <==> old(Tables()).Define(name, typ, kind).Ok?
      ensures r.Ok? ==> Tables() == old(Tables()).Define(name, typ, kind).value
      ensures r.Err? ==> Tables() == old(Tables()) && r.msg == old(Tables()).Define(name, typ, kind).msg
    {
      if kind == Static {
        var index := |staticTable|;
        staticTable := staticTable[name := Entry(typ, kind, index)];
      } else if kind == Field {
        var index := |fieldTable|;
        fieldTable := fieldTable[name := Entry(typ, kind, index)];
      } else if kind == Argument {
        var index := |argTable|;
        argTable := argTable[name := Entry(typ, kind, index)];
      } else if kind == Var {
        var index := |varTable|;
        varTable := varTable[name := Entry(typ, kind, index)];
      } else {
        return Err("invalid kind for define, kind: " + kind);
      }
      r := Ok(());
    }

    /** `varCount`: the size of the dictionary of the kind; any other kind
        throws. */
    function VarCount(kind: string): (r: Result<nat>)
      reads this
      ensures kind == Static ==> r == Ok(|staticTable|)
      ensures kind == Field ==> r == Ok(|fieldTable|)
      ensures kind == Argument ==> r == Ok(|argTable|)
      ensures kind == Var ==> r == Ok(|varTable|)
      ensures r.Err? <==> !IsKind(kind)
    {
      Tables().VarCount(kind)
    }

    /** `kindOf`: the subroutine's dictionaries are searched before the
        class's, and an unknown name has kind `none`. */
    function KindOf(name: string): (r: string)
      reads this
      ensures name in argTable ==> r == argTable[name].kind
      ensures name !in argTable && name in varTable ==> r == varTable[name].kind
      ensures name !in argTable && name !in varTable && name in staticTable ==> r == staticTable[name].kind
      ensures name !in argTable && name !in varTable && name !in staticTable && name in fieldTable ==> r == fieldTable[name].kind
      ensures !Defined(name) ==> r == NoKind
    {
      Tables().KindOf(name)
    }

    /** `typeOf`: the type found in the same order; an unknown name throws. */
    function TypeOf(name: string): (r: Result<string>)
      reads this
      ensures name in argTable ==> r == Ok(argTable[name].typ)
      ensures name !in argTable && name in varTable ==> r == Ok(varTable[name].typ)
      ensures name !in argTable && name !in varTable && name in staticTable ==> r == Ok(staticTable[name].typ)
      ensures name !in argTable && name !in varTable && name !in staticTable && name in fieldTable ==> r == Ok(fieldTable[name].typ)
      ensures r.Err? <==> !Defined(name)
    {
      Tables().TypeOf(name)
    }

    /** `indexOf`: the index found in the same order; an unknown name
        throws. */
    function IndexOf(name: string): (r: Result<nat>)
      reads this
      ensures name in argTable ==> r == Ok(argTable[name].index)
      ensures name !in argTable && name in varTable ==> r == Ok(varTable[name].index)
      ensures name !in argTable && name !in varTable && name in staticTable ==> r == Ok(staticTable[name].index)
      ensures name !in argTable && name !in varTable && name !in staticTable && name in fieldTable ==> r == Ok(fieldTable[name].index)
      ensures r.Err? <==> !Defined(name)
    {
      Tables().IndexOf(name)
    }

    /** The name is in one of the four dictionaries. */
    predicate Defined(name: string)
      reads this
    {
      name in argTable || name in varTable || name in staticTable || name in fieldTable
    }
  }
}
