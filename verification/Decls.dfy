/** Declaring the functions of a module to the object file: every function gets a symbol, and imports and
    exports are listed under the position that symbol is about to take in `function_names`. */
module Decls {
  import opened Basics
  import opened ModuleInfo

  /** The symbol of a function: what the bindings make of an import, the first export name, or a local name. */
  datatype Symbol = ImportSymbol(name: string) | ExportSymbol(name: string) | LocalSymbol(index: nat)

  datatype ImportFunction = ImportFunction(func: nat, mod: string, field: string)

  /** The symbols the bindings give to imports; a name they lack is an error. */
  type Bindings = map<(string, string), string>

  /** The import table of the module data: every import, by unique index. */
  function ImportTable(importedFuncs: seq<(string, string)>): seq<ImportFunction> {
    seq(|importedFuncs|, u requires 0 <= u < |importedFuncs| =>
      ImportFunction(u, importedFuncs[u].0, importedFuncs[u].1))
  }

  predicate Bound(info: Info, bindings: Bindings) {
    forall u | 0 <= u < |info.importedFuncs| :: info.importedFuncs[u] in bindings
  }

  /** A function that is both imported and exported has no body here and keeps its import symbol. */
  predicate HasSymbol(info: Info, bindings: Bindings, u: nat, sym: Symbol)
    requires u < |info.functions|
  {
    if u < |info.importedFuncs| then
      info.importedFuncs[u] in bindings && sym == ImportSymbol(bindings[info.importedFuncs[u]])
    else if info.functions[u].names != [] then sym == ExportSymbol(info.functions[u].names[0])
    else sym == LocalSymbol(u)
  }

  /** A function is declared as an import exactly if the module has no body for it: a symbol declared for export
      is one that gets defined. A function declared under an exported name is the one that name finds, and a
      local one is found under no name. */
  lemma SymbolsMatchBodies(m: Module, bindings: Bindings, u: nat, sym: Symbol, name: string)
    requires m.Valid() && u < |Declared(m).functions|
    requires HasSymbol(Declared(m), bindings, u, sym)
    ensures var i := Declared(m);
            && |i.importedFuncs| <= |i.functions|
            && (sym.ImportSymbol? <==> u !in i.bodies)
            && (sym.ImportSymbol? ==> u < |i.importedFuncs| && i.importedFuncs[u] in bindings &&
                                      sym.name == bindings[i.importedFuncs[u]])
            && (sym.ExportSymbol? ==> Lookup(ExportTable(i.functions), sym.name) == Some(u))
            && (sym.LocalSymbol? ==> sym.index == u && Lookup(ExportTable(i.functions), name) != Some(u))
  {
    BodiesAreLocals(m);
    hide Declared, ExportTable, Lookup;
    if sym.ExportSymbol? {
      NamesResolve(m, u, sym.name);
    } else if sym.LocalSymbol? {
      NamesResolve(m, u, name);
    }
  }

  /** Of the names a function is exported under, the symbol takes the first. */
  lemma SymbolIsFirstName(m: Module, bindings: Bindings, u: nat, sym: Symbol, k: nat)
    requires m.Valid() && u < |Declared(m).functions|
    requires HasSymbol(Declared(m), bindings, u, sym) && !sym.ImportSymbol?
    requires k < |m.exports| && |Declared(m).functionMapping| == m.FuncCount()
    requires Declared(m).functionMapping[m.exports[k].func] == u
    requires forall j | 0 <= j < k :: Declared(m).functionMapping[m.exports[j].func] != u
    ensures sym == ExportSymbol(m.exports[k].name)
  {
    DeclaredIs(m);
    hide Declared, Functions, ImportsMerged, Mapped;
    FirstName(m.exports, Functions(m).functionMapping, u, k);
  }

  lemma {:induction false} FirstName(exports: seq<Export>, mapping: seq<nat>, u: nat, k: nat)
    requires forall j | 0 <= j < |exports| :: exports[j].func < |mapping|
    requires k < |exports| && mapping[exports[k].func] == u
    requires forall j | 0 <= j < k :: mapping[exports[j].func] != u
    ensures NamesOf(exports, mapping, u) != [] && NamesOf(exports, mapping, u)[0] == exports[k].name
  {
    var n := |exports| - 1;
    if k < n {
      FirstName(exports[..n], mapping, u, k);
    } else {
      NoNamesBefore(exports[..n], mapping, u);
    }
  }

  lemma {:induction false} NoNamesBefore(exports: seq<Export>, mapping: seq<nat>, u: nat)
    requires forall j | 0 <= j < |exports| :: exports[j].func < |mapping| && mapping[exports[j].func] != u
    ensures NamesOf(exports, mapping, u) == []
  {
    if exports != [] {
      NoNamesBefore(exports[..|exports| - 1], mapping, u);
    }
  }

  lemma BodiesAreLocals(m: Module)
    requires m.Valid()
    ensures var i := Declared(m);
            && |i.importedFuncs| <= |i.functions|
            && forall u: nat :: u in i.bodies <==> |i.importedFuncs| <= u < |i.functions|
  {
    DeclaredIs(m);
    FunctionsMap(m);
    BodiesFollow(Functions(m), m.bodies);
    hide Declared, Functions, WithBodies, WithImports, WithTypes;
    if |m.locals| > 0 {
      BodiesLand(m, 0);
    }
  }

  /** A name finds a function exactly if the function has it. */
  lemma NamesResolve(m: Module, u: nat, name: string)
    requires m.Valid() && u < |Declared(m).functions|
    ensures Lookup(ExportTable(Declared(m).functions), name) == Some(u) <==> name in Declared(m).functions[u].names
  {
    DeclaredIs(m);
    ExportsResolve(m, name);
    hide Declared, Functions, ImportsMerged, ExportTable, Lookup;
    var mapping := Functions(m).functionMapping;
    NamesOfHas(m.exports, mapping, u, name);
    if k :| 0 <= k < |m.exports| && m.exports[k].name == name {
      OnlyOwnerHasName(m, mapping, k, u);
    }
  }

  lemma SymbolChosen(info: Info, bindings: Bindings, u: nat, importSym: Option<Symbol>, exportSym: Option<Symbol>)
    requires u < |info.functions| && (u < |info.importedFuncs| ==> info.importedFuncs[u] in bindings)
    requires importSym == if u < |info.importedFuncs| then Some(ImportSymbol(bindings[info.importedFuncs[u]])) else None
    requires exportSym == if info.functions[u].names == [] then None else Some(ExportSymbol(info.functions[u].names[0]))
    ensures HasSymbol(info, bindings, u,
              if importSym.Some? then importSym.value else if exportSym.Some? then exportSym.value else LocalSymbol(u))
  {
  }

  lemma ExportTableGrows(functions: seq<Exportable>, u: nat)
    requires u < |functions|
    ensures ExportTable(functions[..u + 1]) ==
            ExportTable(functions[..u]) +
            if functions[u].names != [] then [ExportFunction(u, functions[u].names)] else []
  {
    assert functions[..u + 1][..u] == functions[..u];
  }

  lemma NoExports(functions: seq<Exportable>)
    requires functions == []
    ensures ExportTable(functions) == []
  {
  }

  class ModuleDecls {
    var functionNames: seq<Symbol>
    var imports: seq<ImportFunction>
    var exports: seq<ExportFunction>

    constructor ()
      ensures functionNames == [] && imports == [] && exports == []
    {
      functionNames, imports, exports := [], [], [];
    }

    method ExportNameFor(info: Info, u: nat) returns (sym: Option<Symbol>)
      requires u < |info.functions|
      modifies this`exports
      ensures exports == old(exports) + if info.functions[u].names == [] then []
                                        else [ExportFunction(|functionNames|, info.functions[u].names)]
      ensures sym == if info.functions[u].names == [] then None else Some(ExportSymbol(info.functions[u].names[0]))
    {
      if info.functions[u].names == [] {
        return None;
      }
      exports := exports + [ExportFunction(|functionNames|, info.functions[u].names)];
      sym := Some(ExportSymbol(info.functions[u].names[0]));
    }

    method ImportNameFor(info: Info, bindings: Bindings, u: nat) returns (ok: bool, sym: Option<Symbol>)
      modifies this`imports
      ensures ok <==> u < |info.importedFuncs| ==> info.importedFuncs[u] in bindings
      ensures imports == old(imports) + if !ok || u >= |info.importedFuncs| then []
                else [ImportFunction(|functionNames|, info.importedFuncs[u].0, info.importedFuncs[u].1)]
      ensures ok ==>
        sym == if u < |info.importedFuncs| then Some(ImportSymbol(bindings[info.importedFuncs[u]])) else None
    {
      if u >= |info.importedFuncs| {
        return true, None;
      }
      var name := info.importedFuncs[u];
      if name !in bindings {
        return false, None;
      }
      imports := imports + [ImportFunction(|functionNames|, name.0, name.1)];
      return true, Some(ImportSymbol(bindings[name]));
    }

    /** Functions are declared in order, as the debug assertion demands; one declared again keeps its symbol. */
    method DeclareFunction(sym: Symbol, u: nat) returns (last: nat)
      requires u <= |functionNames|
      modifies this`functionNames
      ensures functionNames == old(functionNames) + if u == old(|functionNames|) then [sym] else []
      ensures last == |functionNames| - 1
    {
      if u >= |functionNames| {
        functionNames := functionNames + [sym];
      }
      last := |functionNames| - 1;
    }

    /** One function, of unique index `u`, when those before it have been declared. */
    method DeclareFunc(info: Info, bindings: Bindings, u: nat) returns (ok: bool)
      requires u < |info.functions| && |functionNames| == u
      modifies this
      ensures ok <==> u < |info.importedFuncs| ==> info.importedFuncs[u] in bindings
      ensures ok ==> |functionNames| == u + 1 && functionNames[..u] == old(functionNames)
      ensures ok ==> HasSymbol(info, bindings, u, functionNames[u])
      ensures exports == old(exports) + if !ok || info.functions[u].names == [] then []
                                        else [ExportFunction(u, info.functions[u].names)]
      ensures imports == old(imports) + if !ok || u >= |info.importedFuncs| then []
                                        else [ImportFunction(u, info.importedFuncs[u].0, info.importedFuncs[u].1)]
    {
      var found, importSym := ImportNameFor(info, bindings, u);
      if !found {
        return false;
      }
      var exportSym := ExportNameFor(info, u);
      var sym :=
        if importSym.Some? then importSym.value else if exportSym.Some? then exportSym.value else LocalSymbol(u);
      var last := DeclareFunction(sym, u);
      SymbolChosen(info, bindings, u, importSym, exportSym);
      ok := true;
    }

    /** Fails exactly if the bindings lack an import. Else every function has its symbol at its unique index,
        and both tables list their functions under it. */
    method DeclareFuncs(info: Info, bindings: Bindings) returns (ok: bool)
      requires functionNames == [] && imports == [] && exports == []
      requires |info.importedFuncs| <= |info.functions|
      modifies this
      ensures ok <==> Bound(info, bindings)
      ensures ok ==> |functionNames| == |info.functions|
      ensures ok ==> forall u | 0 <= u < |functionNames| :: HasSymbol(info, bindings, u, functionNames[u])
      ensures ok ==> exports == ExportTable(info.functions) && imports == ImportTable(info.importedFuncs)
    {
      hide HasSymbol, ExportTable;
      assert exports == ExportTable(info.functions[..0]) by {
        NoExports(info.functions[..0]);
      }
      for ix := 0 to |info.functions|
        invariant |functionNames| == ix
        invariant exports == ExportTable(info.functions[..ix])
        invariant |imports| == if ix < |info.importedFuncs| then ix else |info.importedFuncs|
        invariant imports <= ImportTable(info.importedFuncs)
        invariant forall u | 0 <= u < |imports| :: info.importedFuncs[u] in bindings
        invariant forall u | 0 <= u < ix :: HasSymbol(info, bindings, u, functionNames[u])
      {
        ghost var was := functionNames;
        var declared := DeclareFunc(info, bindings, ix);
        if !declared {
          return false;
        }
        ExportTableGrows(info.functions, ix);
        assert forall u | 0 <= u < ix :: functionNames[u] == functionNames[..ix][u] == was[u];
      }
      assert info.functions[..|info.functions|] == info.functions;
      ok := true;
    }
  }

  /** From a valid module to its module data: the tables of a declared module list every import and every
      exported function under its unique index, so looking a name up finds the function of that name. */
  lemma TablesMatch(m: Module, name: string)
    requires m.Valid()
    ensures var i := Declared(m);
            && |i.importedFuncs| <= |i.functions|
            && (forall k | 0 <= k < |m.exports| && m.exports[k].name == name ::
                  m.exports[k].func < |i.functionMapping|
                  && Lookup(ExportTable(i.functions), name) == Some(i.functionMapping[m.exports[k].func]))
            && (forall k | 0 <= k < |m.imports| ::
                  && k < |i.functionMapping| && i.functionMapping[k] < |i.importedFuncs|
                  && ImportTable(i.importedFuncs)[i.functionMapping[k]]
                     == ImportFunction(i.functionMapping[k], m.imports[k].mod, m.imports[k].field))
  {
    ExportsResolve(m, name);
    DeclaredIs(m);
    FunctionsMap(m);
    hide Declared, Functions, WithImports, WithTypes, EntryOk, ExportTable, Lookup;
    var p := WithImports(WithTypes(EMPTY_INFO, m.types), m.imports);
    forall k | 0 <= k < |m.imports|
      ensures p.importedFuncs[p.functionMapping[k]] == m.imports[k].Name()
    {
    }
  }
}
