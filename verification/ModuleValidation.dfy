/** The declarations as they arrive: each call updates the index maps in place. */
module ModuleValidation {
  import opened Basics
  import opened ModuleInfo

  method FindIndex<T(==)>(xs: seq<T>, x: T) returns (i: nat)
    ensures i == Find(xs, x)
  {
    i := 0;
    while i < |xs| && xs[i] != x
      invariant i <= |xs|
      invariant Find(xs, x) == i + Find(xs[i..], x)
    {
      assert xs[i..][1..] == xs[i + 1..];
      i := i + 1;
    }
  }

  class Declarations {
    var signatureMapping: seq<nat>
    var signatures: seq<FuncType>
    var importedFuncs: seq<(string, string)>
    var functionMapping: seq<nat>
    var functions: seq<Exportable>
    var functionBodies: map<nat, int>

    ghost function Value(): Info
      reads this
    {
      Info(signatureMapping, signatures, importedFuncs, functionMapping, functions, functionBodies)
    }

    constructor ()
      ensures Value() == EMPTY_INFO
    {
      signatureMapping, signatures, importedFuncs, functionMapping := [], [], [], [];
      functions, functionBodies := [], map[];
    }

    method DeclareTypeFunc(ty: FuncType)
      modifies this
      ensures Value() == DeclareType(old(Value()), ty)
    {
      var key := FindIndex(signatures, ty);
      if key == |signatures| {
        signatures := signatures + [ty];
      }
      signatureMapping := signatureMapping + [key];
    }

    method DeclareFuncImport(imp: Import)
      modifies this
      ensures Value() == DeclareImport(old(Value()), imp)
    {
      var key := FindIndex(importedFuncs, imp.Name());
      if key == |importedFuncs| {
        functions := functions + [Exportable(imp.typeIx, [])];
        importedFuncs := importedFuncs + [imp.Name()];
        key := |functions| - 1;
      }
      functionMapping := functionMapping + [key];
    }

    method DeclareFuncType(typeIx: nat)
      modifies this
      ensures Value() == DeclareFunc(old(Value()), typeIx)
    {
      functions := functions + [Exportable(typeIx, [])];
      functionMapping := functionMapping + [|functions| - 1];
    }

    method DeclareFuncExport(e: Export)
      requires e.func < |functionMapping| && functionMapping[e.func] < |functions|
      modifies this
      ensures Value() == DeclareExport(old(Value()), e)
    {
      var u := functionMapping[e.func];
      functions := functions[u := functions[u].(names := functions[u].names + [e.name])];
    }

    method DefineFunctionBody(body: int)
      modifies this
      ensures Value() == DefineBody(old(Value()), body)
    {
      functionBodies := functionBodies[|importedFuncs| + |functionBodies| := body];
    }
  }

  method GetExportFuncId(exports: seq<ExportFunction>, name: string) returns (func: Option<nat>)
    ensures func == Lookup(exports, name)
  {
    for k := 0 to |exports|
      invariant Lookup(exports, name) == Lookup(exports[k..], name)
    {
      assert exports[k..][1..] == exports[k + 1..];
      if name in exports[k].names {
        return Some(exports[k].func);
      }
    }
    func := None;
  }

  // ---- A whole module, section by section ----

  method DeclareTypes(d: Declarations, types: seq<FuncType>)
    modifies d
    ensures d.Value() == WithTypes(old(d.Value()), types)
  {
    for k := 0 to |types|
      invariant d.Value() == WithTypes(old(d.Value()), types[..k])
    {
      assert types[..k + 1][..k] == types[..k];
      d.DeclareTypeFunc(types[k]);
    }
    assert types[..|types|] == types;
  }

  method DeclareImports(d: Declarations, imports: seq<Import>)
    modifies d
    ensures d.Value() == WithImports(old(d.Value()), imports)
  {
    for k := 0 to |imports|
      invariant d.Value() == WithImports(old(d.Value()), imports[..k])
    {
      assert imports[..k + 1][..k] == imports[..k];
      d.DeclareFuncImport(imports[k]);
    }
    assert imports[..|imports|] == imports;
  }

  method DeclareLocals(d: Declarations, locals: seq<nat>)
    modifies d
    ensures d.Value() == WithFuncs(old(d.Value()), locals)
  {
    for k := 0 to |locals|
      invariant d.Value() == WithFuncs(old(d.Value()), locals[..k])
    {
      assert locals[..k + 1][..k] == locals[..k];
      d.DeclareFuncType(locals[k]);
    }
    assert locals[..|locals|] == locals;
  }

  method DeclareExportNames(d: Declarations, exports: seq<Export>)
    requires Mapped(d.Value(), exports)
    modifies d
    ensures d.Value() == WithExports(old(d.Value()), exports)
  {
    for k := 0 to |exports|
      invariant d.Value() == WithExports(old(d.Value()), exports[..k])
    {
      assert exports[..k + 1][..k] == exports[..k];
      ExportsCollect(old(d.Value()), exports[..k]);
      d.DeclareFuncExport(exports[k]);
    }
    assert exports[..|exports|] == exports;
  }

  method DefineBodies(d: Declarations, bodies: seq<int>)
    modifies d
    ensures d.Value() == WithBodies(old(d.Value()), bodies)
  {
    for k := 0 to |bodies|
      invariant d.Value() == WithBodies(old(d.Value()), bodies[..k])
    {
      assert bodies[..k + 1][..k] == bodies[..k];
      d.DefineFunctionBody(bodies[k]);
    }
    assert bodies[..|bodies|] == bodies;
  }

  /** Declaring a whole valid module, in binary order. */
  method DeclareModule(m: Module) returns (d: Declarations)
    requires m.Valid()
    ensures fresh(d) && d.Value() == Declared(m)
  {
    hide WithTypes, WithImports, WithFuncs, WithExports, WithBodies, Mapped;
    d := new Declarations();
    DeclareTypes(d, m.types);
    DeclareImports(d, m.imports);
    DeclareLocals(d, m.locals);
    FunctionsMap(m);
    DeclareExportNames(d, m.exports);
    DefineBodies(d, m.bodies);
  }
}
