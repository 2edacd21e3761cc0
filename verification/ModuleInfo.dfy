/** The index spaces of a module: duplicate signatures and imports are merged as they are
    declared, and bodies, exports and table elements follow the merged indices. */
module ModuleInfo {
  import opened Basics

  /** A function type; two types are the same when they are structurally equal. */
  datatype FuncType = FuncType(params: seq<nat>, results: seq<nat>)

  datatype Import = Import(typeIx: nat, mod: string, field: string) {
    function Name(): (string, string) { (mod, field) }
  }

  datatype Export = Export(func: nat, name: string)

  datatype Exportable = Exportable(typeIx: nat, names: seq<string>)

  /** The parts of `ModuleInfo` and of the bodies map that functions live in. */
  datatype Info = Info(
    signatureMapping: seq<nat>,
    signatures: seq<FuncType>,
    importedFuncs: seq<(string, string)>,
    functionMapping: seq<nat>,
    functions: seq<Exportable>,
    bodies: map<nat, int>)

  const EMPTY_INFO: Info := Info([], [], [], [], [], map[])

  /** The first index at which `x` stands, or the length. */
  function Find<T(==)>(xs: seq<T>, x: T): (i: nat)
    ensures i <= |xs|
    ensures i < |xs| ==> xs[i] == x
    ensures forall j | 0 <= j < i :: xs[j] != x
  {
    if xs == [] then 0 else if xs[0] == x then 0 else 1 + Find(xs[1..], x)
  }

  // ---- Declarations, in the order a module has them ----

  function DeclareType(i: Info, ty: FuncType): Info {
    var k := Find(i.signatures, ty);
    i.(signatures := if k < |i.signatures| then i.signatures else i.signatures + [ty],
       signatureMapping := i.signatureMapping + [k])
  }

  function DeclareImport(i: Info, imp: Import): Info {
    var k := Find(i.importedFuncs, imp.Name());
    if k < |i.importedFuncs| then i.(functionMapping := i.functionMapping + [k])
    else
      i.(functions := i.functions + [Exportable(imp.typeIx, [])],
         importedFuncs := i.importedFuncs + [imp.Name()],
         functionMapping := i.functionMapping + [|i.functions|])
  }

  function DeclareFunc(i: Info, typeIx: nat): Info {
    i.(functions := i.functions + [Exportable(typeIx, [])],
       functionMapping := i.functionMapping + [|i.functions|])
  }

  function DeclareExport(i: Info, e: Export): Info
    requires e.func < |i.functionMapping| && i.functionMapping[e.func] < |i.functions|
  {
    var u := i.functionMapping[e.func];
    i.(functions := i.functions[u := i.functions[u].(names := i.functions[u].names + [e.name])])
  }

  function DefineBody(i: Info, body: int): Info {
    i.(bodies := i.bodies[|i.importedFuncs| + |i.bodies| := body])
  }

  /** A module in binary order: types, imports, local functions, exports, bodies. */
  datatype Module = Module(
    types: seq<FuncType>,
    imports: seq<Import>,
    locals: seq<nat>,
    exports: seq<Export>,
    bodies: seq<int>)
  {
    function FuncCount(): nat { |imports| + |locals| }

    function TypeIxOf(func: nat): nat
      requires func < FuncCount()
    {
      if func < |imports| then imports[func].typeIx else locals[func - |imports|]
    }

    /** What validation guarantees. */
    ghost predicate Valid() {
      && (forall k | 0 <= k < |imports| :: imports[k].typeIx < |types|)
      && (forall k | 0 <= k < |locals| :: locals[k] < |types|)
      && (forall k | 0 <= k < |exports| :: exports[k].func < FuncCount())
      && (forall j, k | 0 <= j < k < |exports| :: exports[j].name != exports[k].name)
      && |bodies| == |locals|
    }
  }

  function WithTypes(i: Info, types: seq<FuncType>): Info {
    if types == [] then i else DeclareType(WithTypes(i, types[..|types| - 1]), types[|types| - 1])
  }

  function WithImports(i: Info, imports: seq<Import>): Info {
    if imports == [] then i else DeclareImport(WithImports(i, imports[..|imports| - 1]), imports[|imports| - 1])
  }

  function WithFuncs(i: Info, locals: seq<nat>): Info {
    if locals == [] then i else DeclareFunc(WithFuncs(i, locals[..|locals| - 1]), locals[|locals| - 1])
  }

  /** A name exported is pushed onto the merged function it names. */
  function WithExports(i: Info, exports: seq<Export>): Info {
    if exports == [] then i
    else
      var p := WithExports(i, exports[..|exports| - 1]);
      var e := exports[|exports| - 1];
      if e.func < |p.functionMapping| && p.functionMapping[e.func] < |p.functions| then DeclareExport(p, e) else p
  }

  function WithBodies(i: Info, bodies: seq<int>): Info {
    if bodies == [] then i else DefineBody(WithBodies(i, bodies[..|bodies| - 1]), bodies[|bodies| - 1])
  }

  function Declared(m: Module): Info {
    var functions := WithFuncs(WithImports(WithTypes(EMPTY_INFO, m.types), m.imports), m.locals);
    WithBodies(WithExports(functions, m.exports), m.bodies)
  }

  // ---- Signatures ----

  lemma {:induction false} TypesMerge(types: seq<FuncType>)
    ensures var i := WithTypes(EMPTY_INFO, types);
            && |i.signatureMapping| == |types|
            && i.importedFuncs == [] && i.functionMapping == [] && i.functions == [] && i.bodies == map[]
            && (forall t | 0 <= t < |types| ::
                  i.signatureMapping[t] < |i.signatures| && i.signatures[i.signatureMapping[t]] == types[t])
            && (forall j, k | 0 <= j < k < |i.signatures| :: i.signatures[j] != i.signatures[k])
  {
    if types != [] {
      TypesMerge(types[..|types| - 1]);
    }
  }

  /** Two types share a unique signature index exactly if they are structurally equal. */
  lemma SameSignature(types: seq<FuncType>, t: nat, u: nat)
    requires t < |types| && u < |types|
    ensures var i := WithTypes(EMPTY_INFO, types);
            && |i.signatureMapping| == |types|
            && (i.signatureMapping[t] == i.signatureMapping[u] <==> types[t] == types[u])
  {
    TypesMerge(types);
  }

  // ---- Imports ----

  function Names(imports: seq<Import>): (r: seq<(string, string)>)
    ensures |r| == |imports|
  {
    seq(|imports|, k requires 0 <= k < |imports| => imports[k].Name())
  }

  /** The import that first declared a name. */
  function First(imports: seq<Import>, name: (string, string)): nat {
    Find(Names(imports), name)
  }

  lemma {:induction false} FindInPrefix<T>(xs: seq<T>, y: T, x: T)
    ensures Find(xs + [y], x) == if Find(xs, x) < |xs| then Find(xs, x) else if y == x then |xs| else |xs| + 1
  {
    var f := Find(xs, x);
    if f < |xs| {
      assert (xs + [y])[f] == x;
    } else {
      assert (xs + [y])[|xs|] == y;
    }
  }

  /** After the imports: every import maps to the entry of its own name, and every name has one entry, of
      the type it was first declared with. */
  ghost predicate ImportsMerged(i: Info, imports: seq<Import>) {
    && |i.functionMapping| == |imports|
    && |i.functions| == |i.importedFuncs|
    && (forall k | 0 <= k < |imports| ::
          && i.functionMapping[k] < |i.importedFuncs|
          && i.importedFuncs[i.functionMapping[k]] == imports[k].Name())
    && (forall j, k | 0 <= j < k < |i.importedFuncs| :: i.importedFuncs[j] != i.importedFuncs[k])
    && (forall u | 0 <= u < |i.functions| :: EntryOk(i, imports, u))
  }

  ghost predicate EntryOk(i: Info, imports: seq<Import>, u: nat)
    requires u < |i.functions| && u < |i.importedFuncs|
  {
    var f := First(imports, i.importedFuncs[u]);
    f < |imports| && i.functions[u] == Exportable(imports[f].typeIx, [])
  }

  lemma {:induction false} ImportsMerge(i: Info, imports: seq<Import>)
    requires i.importedFuncs == [] && i.functionMapping == [] && i.functions == []
    ensures var j := WithImports(i, imports);
            && ImportsMerged(j, imports)
            && j.signatures == i.signatures && j.signatureMapping == i.signatureMapping && j.bodies == i.bodies
  {
    if imports != [] {
      var n := |imports| - 1;
      ImportsMerge(i, imports[..n]);
      ImportMerges(WithImports(i, imports[..n]), imports);
    }
  }

  lemma ImportMerges(p: Info, imports: seq<Import>)
    requires imports != [] && ImportsMerged(p, imports[..|imports| - 1])
    ensures ImportsMerged(DeclareImport(p, imports[|imports| - 1]), imports)
  {
    var n := |imports| - 1;
    var j := DeclareImport(p, imports[n]);
    forall u | 0 <= u < |j.functions|
      ensures EntryOk(j, imports, u)
    {
      EntryStays(p, imports, u);
    }
    forall k | 0 <= k < |imports|
      ensures j.functionMapping[k] < |j.importedFuncs| && j.importedFuncs[j.functionMapping[k]] == imports[k].Name()
    {
      if k < n {
        assert imports[..n][k] == imports[k] && j.functionMapping[k] == p.functionMapping[k];
      }
    }
    hide EntryOk;
  }

  lemma EntryStays(p: Info, imports: seq<Import>, u: nat)
    requires imports != [] && ImportsMerged(p, imports[..|imports| - 1])
    requires u < |DeclareImport(p, imports[|imports| - 1]).functions|
    ensures var j := DeclareImport(p, imports[|imports| - 1]); u < |j.importedFuncs| && EntryOk(j, imports, u)
  {
    var n := |imports| - 1;
    var j := DeclareImport(p, imports[n]);
    assert Names(imports) == Names(imports[..n]) + [imports[n].Name()];
    FindInPrefix(Names(imports[..n]), imports[n].Name(), j.importedFuncs[u]);
    if u < |p.functions| {
      assert EntryOk(p, imports[..n], u);
    } else {
      NewName(p, imports);
    }
  }

  /** A name that has no entry yet was not imported before. */
  lemma NewName(p: Info, imports: seq<Import>)
    requires imports != [] && ImportsMerged(p, imports[..|imports| - 1])
    requires Find(p.importedFuncs, imports[|imports| - 1].Name()) == |p.importedFuncs|
    ensures First(imports[..|imports| - 1], imports[|imports| - 1].Name()) == |imports| - 1
  {
  }

  // ---- Local functions, exports and bodies ----

  lemma {:induction false} FuncsAppend(i: Info, locals: seq<nat>)
    ensures var j := WithFuncs(i, locals);
            && j.functionMapping == i.functionMapping + seq(|locals|, k => |i.functions| + k)
            && j.functions == i.functions + seq(|locals|, k requires 0 <= k < |locals| => Exportable(locals[k], []))
            && j.importedFuncs == i.importedFuncs && j.bodies == i.bodies
            && j.signatures == i.signatures && j.signatureMapping == i.signatureMapping
  {
    if locals != [] {
      FuncsAppend(i, locals[..|locals| - 1]);
    }
  }

  lemma {:induction false} BodiesFollow(i: Info, bodies: seq<int>)
    requires i.bodies == map[]
    ensures var j := WithBodies(i, bodies);
            && j == i.(bodies := j.bodies)
            && |j.bodies| == |bodies|
            && (forall u: nat :: u in j.bodies <==> |i.importedFuncs| <= u < |i.importedFuncs| + |bodies|)
            && (forall k | 0 <= k < |bodies| :: j.bodies[|i.importedFuncs| + k] == bodies[k])
  {
    if bodies != [] {
      BodiesFollow(i, bodies[..|bodies| - 1]);
    }
  }

  /** The names under which the merged function `u` is exported, in order. */
  function NamesOf(exports: seq<Export>, mapping: seq<nat>, u: nat): seq<string>
    requires forall k | 0 <= k < |exports| :: exports[k].func < |mapping|
  {
    if exports == [] then []
    else
      var e := exports[|exports| - 1];
      NamesOf(exports[..|exports| - 1], mapping, u) + if mapping[e.func] == u then [e.name] else []
  }

  ghost predicate Mapped(i: Info, exports: seq<Export>) {
    && (forall k | 0 <= k < |exports| :: exports[k].func < |i.functionMapping|)
    && (forall f | 0 <= f < |i.functionMapping| :: i.functionMapping[f] < |i.functions|)
  }

  lemma {:induction false} ExportsCollect(i: Info, exports: seq<Export>)
    requires Mapped(i, exports)
    ensures var j := WithExports(i, exports);
            && j == i.(functions := j.functions)
            && |j.functions| == |i.functions|
            && (forall u | 0 <= u < |j.functions| ::
                  && j.functions[u].typeIx == i.functions[u].typeIx
                  && j.functions[u].names == i.functions[u].names + NamesOf(exports, i.functionMapping, u))
  {
    if exports != [] {
      ExportsCollect(i, exports[..|exports| - 1]);
    }
  }

  lemma {:induction false} NamesOfHas(exports: seq<Export>, mapping: seq<nat>, u: nat, name: string)
    requires forall k | 0 <= k < |exports| :: exports[k].func < |mapping|
    ensures name in NamesOf(exports, mapping, u) <==>
            exists k :: 0 <= k < |exports| && exports[k].name == name && mapping[exports[k].func] == u
  {
    if exports != [] {
      var n := |exports| - 1;
      NamesOfHas(exports[..n], mapping, u, name);
      if name in NamesOf(exports[..n], mapping, u) {
        var k :| 0 <= k < n && exports[..n][k].name == name && mapping[exports[..n][k].func] == u;
        assert exports[k].name == name;
      }
    }
  }

  // ---- The whole module ----

  /** The module after types, imports and local functions. */
  function Functions(m: Module): Info {
    WithFuncs(WithImports(WithTypes(EMPTY_INFO, m.types), m.imports), m.locals)
  }

  lemma FunctionsMap(m: Module)
    requires m.Valid()
    ensures var i, p := Functions(m), WithImports(WithTypes(EMPTY_INFO, m.types), m.imports);
            && ImportsMerged(p, m.imports)
            && i.importedFuncs == p.importedFuncs && i.bodies == map[]
            && i.signatures == WithTypes(EMPTY_INFO, m.types).signatures
            && i.signatureMapping == WithTypes(EMPTY_INFO, m.types).signatureMapping
            && |i.functionMapping| == m.FuncCount()
            && |i.functions| == |p.functions| + |m.locals|
            && (forall u | 0 <= u < |p.functions| :: i.functions[u] == p.functions[u])
            && (forall k | 0 <= k < |m.imports| :: i.functionMapping[k] == p.functionMapping[k])
            && (forall k | 0 <= k < |m.locals| ::
                  && i.functionMapping[|m.imports| + k] == |p.functions| + k
                  && i.functions[|p.functions| + k] == Exportable(m.locals[k], []))
            && Mapped(i, m.exports)
  {
    TypesMerge(m.types);
    ImportsMerge(WithTypes(EMPTY_INFO, m.types), m.imports);
    var p := WithImports(WithTypes(EMPTY_INFO, m.types), m.imports);
    FuncsAppend(p, m.locals);
    forall f | 0 <= f < m.FuncCount()
      ensures Functions(m).functionMapping[f] < |Functions(m).functions|
    {
      if f < |m.imports| {
        assert p.functionMapping[f] < |p.importedFuncs|;
      }
    }
  }

  lemma NoNamesYet(m: Module, u: nat)
    requires m.Valid() && u < |Functions(m).functions|
    ensures Functions(m).functions[u].names == []
  {
    FunctionsMap(m);
    var f, p := Functions(m), WithImports(WithTypes(EMPTY_INFO, m.types), m.imports);
    if u < |p.functions| {
      assert EntryOk(p, m.imports, u);
    } else {
      assert f.functions[|p.functions| + (u - |p.functions|)] == Exportable(m.locals[u - |p.functions|], []);
    }
  }

  lemma DeclaredIs(m: Module)
    requires m.Valid()
    ensures var i, f := Declared(m), Functions(m);
            && |f.functionMapping| == m.FuncCount() && Mapped(f, m.exports)
            && i.functionMapping == f.functionMapping && i.importedFuncs == f.importedFuncs
            && i.signatures == f.signatures && i.signatureMapping == f.signatureMapping
            && |i.functions| == |f.functions|
            && (forall u | 0 <= u < |f.functions| ::
                  && i.functions[u].typeIx == f.functions[u].typeIx
                  && i.functions[u].names == NamesOf(m.exports, f.functionMapping, u))
            && i.bodies == WithBodies(f, m.bodies).bodies
  {
    FunctionsMap(m);
    hide ImportsMerged, EntryOk, WithImports, WithTypes, WithFuncs, Functions;
    var f := Functions(m);
    ExportsCollect(f, m.exports);
    BodiesFollow(WithExports(f, m.exports), m.bodies);
    SameBodies(WithExports(f, m.exports), f, m.bodies);
    assert Declared(m) == WithBodies(WithExports(f, m.exports), m.bodies) by {
      DeclaredInOrder(m);
    }
    forall u | 0 <= u < |f.functions|
      ensures WithExports(f, m.exports).functions[u].names == NamesOf(m.exports, f.functionMapping, u)
    {
      NoNamesYet(m, u);
    }
  }

  lemma DeclaredInOrder(m: Module)
    ensures Declared(m) == WithBodies(WithExports(Functions(m), m.exports), m.bodies)
  {
  }

  lemma {:induction false} SameBodies(i: Info, j: Info, bodies: seq<int>)
    requires i.bodies == j.bodies && i.importedFuncs == j.importedFuncs
    ensures WithBodies(i, bodies).bodies == WithBodies(j, bodies).bodies
    ensures WithBodies(i, bodies).importedFuncs == WithBodies(j, bodies).importedFuncs
  {
    if bodies != [] {
      SameBodies(i, j, bodies[..|bodies| - 1]);
    }
  }

  /** Two imports share a unique index exactly if they import the same field of the same module. */
  lemma ImportsShareIndex(m: Module, j: nat, k: nat)
    requires m.Valid() && j < |m.imports| && k < |m.imports|
    ensures var i := Declared(m);
            && |i.functionMapping| == m.FuncCount()
            && (i.functionMapping[j] == i.functionMapping[k] <==> m.imports[j].Name() == m.imports[k].Name())
  {
    DeclaredIs(m);
    FunctionsMap(m);
    var p := WithImports(WithTypes(EMPTY_INFO, m.types), m.imports);
    assert p.importedFuncs[p.functionMapping[j]] == m.imports[j].Name();
    assert p.importedFuncs[p.functionMapping[k]] == m.imports[k].Name();
  }

  /** The k-th body belongs to the k-th local function, and no other function has a body. */
  lemma BodiesLand(m: Module, k: nat)
    requires m.Valid() && k < |m.locals|
    ensures var i := Declared(m);
            && |i.functionMapping| == m.FuncCount()
            && i.functionMapping[|m.imports| + k] in i.bodies
            && i.bodies[i.functionMapping[|m.imports| + k]] == m.bodies[k]
    ensures var i := Declared(m);
            forall u: nat :: u in i.bodies <==> |i.importedFuncs| <= u < |i.functions|
  {
    LocalIndex(m, k);
    DeclaredIs(m);
    BodiesFollow(Functions(m), m.bodies);
    hide Declared, Functions, WithBodies, NamesOf, Mapped;
    var u := |Functions(m).importedFuncs| + k;
    assert u in WithBodies(Functions(m), m.bodies).bodies;
  }

  lemma LocalIndex(m: Module, k: nat)
    requires m.Valid() && k < |m.locals|
    ensures var f := Functions(m);
            && |f.functionMapping| == m.FuncCount() && f.bodies == map[]
            && f.functionMapping[|m.imports| + k] == |f.importedFuncs| + k
            && |f.functions| == |f.importedFuncs| + |m.locals|
  {
    FunctionsMap(m);
    assert m.locals[k] < |m.types|;
  }

  /** The type recorded for a function. */
  function TypeRecorded(i: Info, func: nat): Option<FuncType> {
    if func < |i.functionMapping| && i.functionMapping[func] < |i.functions|
       && i.functions[i.functionMapping[func]].typeIx < |i.signatureMapping|
       && i.signatureMapping[i.functions[i.functionMapping[func]].typeIx] < |i.signatures|
    then Some(i.signatures[i.signatureMapping[i.functions[i.functionMapping[func]].typeIx]]) else None
  }

  /** The function declaration whose type is the one recorded: a merged import's first. */
  function TypeSource(m: Module, func: nat): (f: nat)
    requires func < m.FuncCount()
    ensures f <= func
  {
    if func < |m.imports| then
      var f := First(m.imports, m.imports[func].Name());
      assert f <= func by {
        assert Names(m.imports)[func] == m.imports[func].Name();
      }
      f
    else func
  }

  /** Every function is recorded with the type it was declared with, except that repeated imports take
      the type of the first one. */
  lemma TypesRecorded(m: Module, func: nat)
    requires m.Valid() && func < m.FuncCount()
    ensures TypeRecorded(Declared(m), func) == Some(m.types[m.TypeIxOf(TypeSource(m, func))])
  {
    DeclaredIs(m);
    FunctionsMap(m);
    TypesMerge(m.types);
    TypeIxRecorded(m, func);
    hide Declared, Functions, WithImports, WithTypes, ImportsMerged, NamesOf, WithBodies, TypeSource;
  }

  lemma TypeIxRecorded(m: Module, func: nat)
    requires m.Valid() && func < m.FuncCount()
    ensures var f := Functions(m);
            && |f.functionMapping| == m.FuncCount() && f.functionMapping[func] < |f.functions|
            && TypeSource(m, func) < m.FuncCount()
            && f.functions[f.functionMapping[func]].typeIx == m.TypeIxOf(TypeSource(m, func)) < |m.types|
  {
    FunctionsMap(m);
    hide Functions, WithImports, WithTypes, Mapped;
    var p := WithImports(WithTypes(EMPTY_INFO, m.types), m.imports);
    if func < |m.imports| {
      assert EntryOk(p, m.imports, p.functionMapping[func]);
      assert p.importedFuncs[p.functionMapping[func]] == m.imports[func].Name();
    } else {
      assert m.locals[func - |m.imports|] < |m.types|;
      assert Functions(m).functionMapping[|m.imports| + (func - |m.imports|)] == |p.functions| + (func - |m.imports|);
    }
  }

  // ---- Exports ----

  datatype ExportFunction = ExportFunction(func: nat, names: seq<string>)

  /** The export table of the module data: every function that has names, by unique index. */
  function ExportTable(functions: seq<Exportable>): seq<ExportFunction> {
    if functions == [] then []
    else
      var u := |functions| - 1;
      ExportTable(functions[..u]) + if functions[u].names != [] then [ExportFunction(u, functions[u].names)] else []
  }

  /** What the runtime finds: the first entry that has the name. */
  function Lookup(exports: seq<ExportFunction>, name: string): Option<nat> {
    if exports == [] then None
    else if name in exports[0].names then Some(exports[0].func)
    else Lookup(exports[1..], name)
  }

  lemma {:induction false} LookupAppend(xs: seq<ExportFunction>, y: ExportFunction, name: string)
    ensures Lookup(xs + [y], name) == if Lookup(xs, name).Some? then Lookup(xs, name)
                                      else if name in y.names then Some(y.func) else None
  {
    if xs == [] {
      assert [] + [y] == [y];
    } else {
      assert (xs + [y])[1..] == xs[1..] + [y];
      LookupAppend(xs[1..], y, name);
    }
  }

  /** If only function `u` can have the name, looking it up gives `u` exactly if it does. */
  lemma {:induction false} LookupFinds(functions: seq<Exportable>, name: string, u: nat)
    requires forall v | 0 <= v < |functions| && v != u :: name !in functions[v].names
    ensures Lookup(ExportTable(functions), name) ==
            if u < |functions| && name in functions[u].names then Some(u) else None
  {
    if functions != [] {
      var n := |functions| - 1;
      LookupFinds(functions[..n], name, u);
      if functions[n].names != [] {
        LookupAppend(ExportTable(functions[..n]), ExportFunction(n, functions[n].names), name);
      } else {
        assert ExportTable(functions) == ExportTable(functions[..n]);
      }
    }
  }

  /** Looking an exported name up in the module data gives the unique index of the function the Wasm
      module exported under it; other names give nothing. */
  lemma ExportsResolve(m: Module, name: string)
    requires m.Valid()
    ensures var i := Declared(m);
            var found := Lookup(ExportTable(i.functions), name);
            && (forall k | 0 <= k < |m.exports| && m.exports[k].name == name ::
                  m.exports[k].func < |i.functionMapping| && found == Some(i.functionMapping[m.exports[k].func]))
            && ((forall k | 0 <= k < |m.exports| :: m.exports[k].name != name) ==> found == None)
  {
    DeclaredIs(m);
    hide Declared, Functions, ImportsMerged;
    var i, f := Declared(m), Functions(m);
    if k :| 0 <= k < |m.exports| && m.exports[k].name == name {
      var u := f.functionMapping[m.exports[k].func];
      forall v | 0 <= v < |i.functions|
        ensures name in i.functions[v].names <==> v == u
      {
        OnlyOwnerHasName(m, f.functionMapping, k, v);
      }
      LookupFinds(i.functions, name, u);
    } else {
      forall v | 0 <= v < |i.functions|
        ensures name !in i.functions[v].names
      {
        NamesOfHas(m.exports, f.functionMapping, v, name);
      }
      LookupFinds(i.functions, name, |i.functions|);
    }
  }

  lemma OnlyOwnerHasName(m: Module, mapping: seq<nat>, k: nat, v: nat)
    requires m.Valid() && k < |m.exports| && |mapping| == m.FuncCount()
    ensures m.exports[k].name in NamesOf(m.exports, mapping, v) <==> v == mapping[m.exports[k].func]
  {
    NamesOfHas(m.exports, mapping, v, m.exports[k].name);
  }
}
