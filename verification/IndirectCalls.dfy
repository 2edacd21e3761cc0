/** Indirect calls: the emitted check against the rule of section 4.4.5 of the WebAssembly Core
    Specification 1.0, from the declarations of a module down to the bytes of its table. */
module IndirectCalls {
  import opened Basics
  import opened ModuleInfo
  import opened Tables

  /** A table as `table_elements` and `write_table_data` leave it for module `m`. */
  datatype Table = Table(minimum: nat, segments: seq<Segment>, elems: seq<Elem>, image: Image) {
    ghost predicate Built(m: Module) {
      && minimum <= U32_MAX
      && ElementsOk(m, segments)
      && |elems| == minimum
      && (forall i | 0 <= i < minimum :: elems[i] == Slot(Merged(Declared(m), segments), i))
      && Addressable(elems)
      && Images(image, elems, Signatures(Declared(m)))
    }

    /** The function the last segment covering `callee` put there, if `callee` is in the table. */
    function At(callee: nat): Option<nat> {
      if callee >= minimum || Slot(segments, callee).Empty? then None else Some(Slot(segments, callee).func)
    }
  }

  /** The limit on unique signature indices. */
  ghost predicate Numbered(m: Module) {
    m.Valid() && |m.types| <= U32_MAX
  }

  /** The type a call of `func` is checked against. */
  function CheckedType(m: Module, func: nat): FuncType
    requires m.Valid() && func < m.FuncCount()
  {
    m.types[m.TypeIxOf(TypeSource(m, func))]
  }

  function DeclaredType(m: Module, func: nat): FuncType
    requires m.Valid() && func < m.FuncCount()
  {
    m.types[m.TypeIxOf(func)]
  }

  /** What the emitted check does with a call through `table` at the expected type `t`. */
  function Emitted(m: Module, table: Table, callee: nat, t: nat): Indirect
    requires callee <= U32_MAX && table.minimum <= U32_MAX && |table.image.data| == 16 * table.minimum
  {
    var i := Declared(m);
    CallIndirect(table.image, table.minimum, if t < |i.signatureMapping| then i.signatureMapping[t] else 0, callee)
  }

  /** What the rule demands, with the function named by its unique index; `None` is a trap. */
  function Rule(m: Module, table: Table, callee: nat, t: nat): Option<nat>
    requires m.Valid() && t < |m.types| && ElementsOk(m, table.segments)
  {
    InTableIsDeclared(m, table, callee);
    match table.At(callee)
    case None => None
    case Some(f) => if DeclaredType(m, f) == m.types[t] then UniqueOf(m, f) else None
  }

  function UniqueOf(m: Module, func: nat): Option<nat> {
    var i := Declared(m);
    if func < |i.functionMapping| then Some(i.functionMapping[func]) else None
  }

  lemma InTableIsDeclared(m: Module, table: Table, callee: nat)
    requires ElementsOk(m, table.segments)
    ensures table.At(callee).Some? ==> table.At(callee).value < m.FuncCount()
  {
    SlotIsDeclared(m, table.segments, callee);
  }

  lemma {:induction false} SlotIsDeclared(m: Module, segments: seq<Segment>, s: nat)
    requires ElementsOk(m, segments)
    ensures Slot(segments, s).Func? ==> Slot(segments, s).func < m.FuncCount()
  {
    if segments != [] {
      SlotIsDeclared(m, segments[..|segments| - 1], s);
    }
  }

  /** A slot that holds `f` carries the unique index of the type `f` is checked against; it is the
      expected index exactly if the types are structurally equal. */
  lemma SlotSignature(m: Module, func: nat, t: nat)
    requires Numbered(m) && func < m.FuncCount() && t < |m.types|
    ensures var i := Declared(m);
            && |i.functionMapping| == m.FuncCount() && |i.signatureMapping| == |m.types|
            && i.functionMapping[func] < |i.functions|
            && Signatures(i)[i.functionMapping[func]] <= |m.types|
            && (Signatures(i)[i.functionMapping[func]] == i.signatureMapping[t] <==> CheckedType(m, func) == m.types[t])
  {
    TypesRecorded(m, func);
    SignaturesMerge(m, t);
    hide Declared, TypeSource;
    var i := Declared(m);
    var u := i.functionMapping[func];
    assert Signatures(i)[u] == i.signatureMapping[i.functions[u].typeIx];
  }

  lemma SignaturesMerge(m: Module, t: nat)
    requires m.Valid() && t < |m.types|
    ensures var i := Declared(m);
            && |i.functionMapping| == m.FuncCount() && |i.signatureMapping| == |m.types|
            && (forall u | 0 <= u < |m.types| ::
                  && i.signatureMapping[u] < |i.signatures| <= |m.types|
                  && i.signatures[i.signatureMapping[u]] == m.types[u])
            && (forall j, k | 0 <= j < k < |i.signatures| :: i.signatures[j] != i.signatures[k])
  {
    DeclaredIs(m);
    FunctionsMap(m);
    TypesMerge(m.types);
    FewSignatures(m.types);
  }

  lemma {:induction false} FewSignatures(types: seq<FuncType>)
    ensures |WithTypes(EMPTY_INFO, types).signatures| <= |types|
  {
    if types != [] {
      FewSignatures(types[..|types| - 1]);
    }
  }

  /** The check calls `u` exactly if the callee index is in the table, the last segment covering it put a
      function there whose checked type is structurally equal to the expected one, and `u` is that
      function's unique index. It never goes on to the null address of an empty slot. An index past the table is
      out of bounds, and so is one of 2^31 or more, which is sign-extended; at any other index an empty slot or
      another type is a bad signature. */
  lemma CheckIsExact(m: Module, table: Table, callee: nat, t: nat)
    requires Numbered(m) && table.Built(m) && t < |m.types| && callee <= U32_MAX
    ensures var f := table.At(callee);
            && (f.Some? ==> f.value < m.FuncCount())
            && (forall u: nat :: Emitted(m, table, callee, t) == Calls(u) <==>
                  f.Some? && CheckedType(m, f.value) == m.types[t] && UniqueOf(m, f.value) == Some(u))
    ensures Emitted(m, table, callee, t) != CallsNull
    ensures Emitted(m, table, callee, t) == TableOutOfBounds <==> callee >= table.minimum || callee >= 0x8000_0000
    ensures var f := table.At(callee);
            Emitted(m, table, callee, t) == BadSignature <==>
              && callee < table.minimum && callee < 0x8000_0000
              && (f.None? || CheckedType(m, f.value) != m.types[t])
  {
    InTableIsDeclared(m, table, callee);
    SignaturesMerge(m, t);
    hide Declared, Merged, Signatures, CheckedType;
    if callee < table.minimum {
      EntryOf(m, table, callee);
      if Slot(table.segments, callee).Func? {
        SlotSignature(m, Slot(table.segments, callee).func, t);
      }
    }
  }

  /** The bytes of an entry, from what the segments put there. */
  lemma EntryOf(m: Module, table: Table, callee: nat)
    requires table.Built(m) && callee < table.minimum && |Declared(m).functionMapping| == m.FuncCount()
    ensures var i, e := Declared(m), Slot(table.segments, callee);
            && (e.Func? ==> e.func < m.FuncCount())
            && Word(table.image.data, 16 * callee)
               == SigWord(if e.Func? then Func(i.functionMapping[e.func]) else Empty, Signatures(i))
            && (16 * callee + 8 in table.image.relocs <==> e.Func?)
            && (e.Func? ==> table.image.relocs[16 * callee + 8] == i.functionMapping[e.func] && callee < 0x1000_0000)
  {
    MergedSlot(m, Declared(m), table.segments, callee);
    hide Declared, Merged, Signatures;
    assert EntryImaged(table.image, table.elems, Signatures(Declared(m)), callee);
  }

  /** A table of `n` empty slots. */
  ghost function EmptyTable(m: Module, n: nat): Table {
    Table(n, [], seq(n, _ => Empty), EmptyImage(n, Signatures(Declared(m))))
  }

  ghost function EmptyImage(n: nat, sigs: seq<nat>): Image {
    if n == 0 then Image([], map[]) else Appended(EmptyImage(n - 1, sigs), Empty, sigs)
  }

  lemma {:induction false} EmptyIsImaged(n: nat, sigs: seq<nat>)
    ensures Images(EmptyImage(n, sigs), seq(n, _ => Empty), sigs)
  {
    if n > 0 {
      var elems := seq(n - 1, _ => Empty);
      EmptyIsImaged(n - 1, sigs);
      AppendImages(EmptyImage(n - 1, sigs), elems, sigs, Empty);
      assert elems + [Empty] == seq(n, _ => Empty);
    }
  }

  /** In a table of more than 2^31 slots an index inside it is reported out of bounds. */
  lemma FarSlotIsOutOfBounds(m: Module, t: nat)
    requires Numbered(m) && t < |m.types|
    ensures var table := EmptyTable(m, 0x8000_0001);
            && table.Built(m) && 0x8000_0000 < table.minimum
            && Emitted(m, table, 0x8000_0000, t) == TableOutOfBounds
  {
    var table := EmptyTable(m, 0x8000_0001);
    EmptyIsImaged(0x8000_0001, Signatures(Declared(m)));
    hide Declared, Signatures, EmptyImage, Images;
    assert table.Built(m);
    hide EmptyTable;
    CheckIsExact(m, table, 0x8000_0000, t);
  }

  lemma LowFunctions(elems: seq<Elem>, segments: seq<Segment>)
    requires forall i | 0 <= i < |elems| :: elems[i].Func? <==> Slot(segments, i).Func?
    ensures Addressable(elems) <==> forall i | 0x1000_0000 <= i < |elems| :: Slot(segments, i).Empty?
  {
    if Addressable(elems) {
      forall i | 0x1000_0000 <= i < |elems|
        ensures Slot(segments, i).Empty?
      {
        assert !elems[i].Func?;
      }
    } else {
      var i :| 0 <= i < |elems| && elems[i].Func? && 16 * i + 8 >= U32_MAX;
      assert Slot(segments, i).Func?;
    }
  }

  /** Flattens the segments and lays the table out; `Ok(None)` is the failed assertion on its size. */
  method DefineTable(m: Module, isFuncs: bool, minimum: nat, segments: seq<Segment>)
    returns (r: Result<Option<Table>, Error>)
    requires Numbered(m) && ElementsOk(m, segments) && minimum <= U32_MAX
    ensures r.Ok? <==> isFuncs && Refusal(segments, minimum).None?
    ensures r.Err? ==> r.error == if !isFuncs then NotFunctions else Refusal(segments, minimum).value
    ensures r.Ok? ==> (r.value.Some? <==> forall i | 0x1000_0000 <= i < minimum :: Slot(segments, i).Empty?)
    ensures r.Ok? && r.value.Some? ==>
              && r.value.value.Built(m)
              && r.value.value.minimum == minimum && r.value.value.segments == segments
  {
    var i := Declared(m);
    DeclaredIs(m);
    hide Declared;
    RefusalMerged(i, segments, minimum);
    var elements := TableElements(isFuncs, minimum, Merged(i, segments));
    if elements.Err? {
      return Err(elements.error);
    }
    var elems := elements.value;
    forall s | 0 <= s < minimum
      ensures elems[s].Func? <==> Slot(segments, s).Func?
      ensures elems[s].Func? ==>
        elems[s].func < |Signatures(i)| && Signatures(i)[elems[s].func] <= U32_MAX
    {
      MergedSlot(m, i, segments, s);
      if elems[s].Func? {
        SlotSignature(m, Slot(segments, s).func, m.TypeIxOf(Slot(segments, s).func));
      }
    }
    LowFunctions(elems, segments);
    var image := WriteTableData(elems, Signatures(i));
    r := Ok(if image.Some? then Some(Table(minimum, segments, elems, image.value)) else None);
  }

  /** Imports of the same field of the same module have structurally equal types. */
  ghost predicate ImportsAgree(m: Module)
    requires m.Valid()
  {
    forall j, k | 0 <= j < k < |m.imports| && m.imports[j].Name() == m.imports[k].Name() ::
      DeclaredType(m, j) == DeclaredType(m, k)
  }

  lemma AgreeingTypes(m: Module)
    requires m.Valid()
    ensures ImportsAgree(m) <==> forall f | 0 <= f < m.FuncCount() :: CheckedType(m, f) == DeclaredType(m, f)
  {
  }

  ghost predicate MeetsRule(m: Module, table: Table, callee: nat, t: nat)
    requires m.Valid() && t < |m.types| && ElementsOk(m, table.segments)
    requires callee <= U32_MAX && table.minimum <= U32_MAX && |table.image.data| == 16 * table.minimum
  {
    forall u: nat :: Emitted(m, table, callee, t) == Calls(u) <==> Rule(m, table, callee, t) == Some(u)
  }

  ghost predicate AlwaysMeetsRule(m: Module)
    requires m.Valid()
  {
    forall table: Table, callee: nat, t: nat ::
      table.Built(m) && t < |m.types| && callee <= U32_MAX ==> MeetsRule(m, table, callee, t)
  }

  /** The table with `func` alone in it. */
  ghost function Lone(m: Module, func: nat): Table
    requires func < |Declared(m).functionMapping|
  {
    var u := Declared(m).functionMapping[func];
    Table(1, [Segment(false, 0, [func])], [Func(u)], LoneTable(u, Signatures(Declared(m))))
  }

  function LoneTable(u: nat, sigs: seq<nat>): Image {
    Appended(Image([], map[]), Func(u), sigs)
  }

  lemma LoneIsBuilt(m: Module, func: nat)
    requires Numbered(m) && func < m.FuncCount()
    ensures |Declared(m).functionMapping| == m.FuncCount()
    ensures Lone(m, func).Built(m) && Lone(m, func).At(0) == Some(func)
  {
    LoneWord(m, func);
    LoneSlot(m, func);
    hide Declared, Merged, Slot, Signatures, Images, LoneTable, ElementsOk, Addressable;
    LoneImage(Declared(m).functionMapping[func], Signatures(Declared(m)));
  }

  lemma LoneWord(m: Module, func: nat)
    requires Numbered(m) && func < m.FuncCount()
    ensures var i := Declared(m);
            |i.functionMapping| == m.FuncCount() && SigWord(Func(i.functionMapping[func]), Signatures(i)) <= U64_MAX
  {
    SlotSignature(m, func, m.TypeIxOf(func));
    hide Declared, TypeSource, CheckedType, Signatures;
  }

  lemma LoneImage(u: nat, sigs: seq<nat>)
    requires SigWord(Func(u), sigs) <= U64_MAX
    ensures Images(LoneTable(u, sigs), [Func(u)], sigs)
  {
    AppendImages(Image([], map[]), [], sigs, Func(u));
    assert [] + [Func(u)] == [Func(u)];
  }

  lemma LoneSlot(m: Module, func: nat)
    requires func < |Declared(m).functionMapping|
    ensures var segments := [Segment(false, 0, [func])];
            && Slot(segments, 0) == Func(func)
            && Slot(Merged(Declared(m), segments), 0) == Func(Declared(m).functionMapping[func])
            && (func < m.FuncCount() ==> ElementsOk(m, segments))
            && Addressable([Func(Declared(m).functionMapping[func])])
  {
  }

  /** The check meets the rule for every table, index and expected type exactly if repeated imports agree
      in type: otherwise a call of one of them at its own type is refused. */
  lemma RuleIsMetIfImportsAgree(m: Module)
    requires Numbered(m)
    ensures AlwaysMeetsRule(m) <==> ImportsAgree(m)
  {
    AgreeingTypes(m);
    if AlwaysMeetsRule(m) {
      forall f | 0 <= f < m.FuncCount()
        ensures CheckedType(m, f) == DeclaredType(m, f)
      {
        LoneTellsType(m, f);
      }
    }
    if ImportsAgree(m) {
      forall table: Table, callee: nat, t: nat | table.Built(m) && t < |m.types| && callee <= U32_MAX
        ensures MeetsRule(m, table, callee, t)
      {
        CheckIsExact(m, table, callee, t);
      }
    }
  }

  lemma LoneTellsType(m: Module, func: nat)
    requires Numbered(m) && func < m.FuncCount() && AlwaysMeetsRule(m)
    ensures CheckedType(m, func) == DeclaredType(m, func)
  {
    LoneIsBuilt(m, func);
    var t := m.TypeIxOf(func);
    CheckIsExact(m, Lone(m, func), 0, t);
    assert MeetsRule(m, Lone(m, func), 0, t);
    assert Rule(m, Lone(m, func), 0, t) == Some(Declared(m).functionMapping[func]);
  }
}
