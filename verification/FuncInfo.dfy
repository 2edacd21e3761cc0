/** The pass as it runs: `FuncInfo` keeps `scope_costs` and emits into the function builder while
    the translator walks the body once. */
module FuncInfo {
  import opened Wasm
  import opened Instrumentation
  import opened ControlStack
  import opened CodeShape

  /** The function under construction. */
  class Builder {
    var code: seq<Item>

    constructor ()
      ensures code == []
    {
      code := [];
    }

    method Emit(item: Item)
      modifies this
      ensures code == old(code) + [item]
    {
      code := code + [item];
    }
  }

  class FuncInfo {
    var scopeCosts: seq<ScopeInfo>

    constructor ()
      ensures scopeCosts == INIT_STATIC.costs
    {
      scopeCosts := [ScopeInfo(0, false)];
    }

    method SetTopCost(cost: nat)
      requires scopeCosts != []
      modifies this
      ensures scopeCosts == WithTop(old(scopeCosts), cost)
    {
      var last := |scopeCosts| - 1;
      scopeCosts := scopeCosts[last := scopeCosts[last].(cost := cost)];
    }

    method FlushCounter(builder: Builder)
      requires scopeCosts != []
      modifies this, builder
      ensures scopeCosts == WithTop(old(scopeCosts), 0)
      ensures builder.code == old(builder.code)
                              + if old(Top(scopeCosts)) == 0 then [] else [AddCount(old(Top(scopeCosts)))]
    {
      var cost := scopeCosts[|scopeCosts| - 1].cost;
      if cost == 0 {
        return;
      }
      builder.Emit(AddCount(cost));
      SetTopCost(0);
    }

    /** Save first, then branch: negative continues, anything else yields and reloads. */
    method SaveAndCheck(builder: Builder)
      modifies builder
      ensures builder.code == old(builder.code) + CHECK
    {
      builder.Emit(Save);
      builder.Emit(SkipIfNegative(3));
      builder.Emit(Save);
      builder.Emit(Yield);
      builder.Emit(Load);
    }

    /** Price a reachable operator and, if it affects control flow, flush. */
    method CountReachable(op: Op, builder: Builder)
      requires scopeCosts != [] && DepthsOk(op, |scopeCosts|)
      modifies this, builder
      ensures scopeCosts == WithTop(old(scopeCosts), if Flushes(op) then 0 else old(Top(scopeCosts)) + OpCost(op))
      ensures builder.code == old(builder.code) + Pre(old(scopeCosts), op, true)
    {
      var cost := Price(op);
      SetTopCost(scopeCosts[|scopeCosts| - 1].cost + cost);
      if op.Free? || op.Simple? {
        return;
      }
      var check := CheckAndSave(op);
      FlushCounter(builder);
      if check {
        SaveAndCheck(builder);
      }
    }

    /** The price list, as the pass writes it down. */
    method Price(op: Op) returns (cost: nat)
      ensures cost == OpCost(op)
    {
      match op {
        case Block | Unreachable | Return => cost := 0;
        case Call(_) => cost := 1;
        case CallIndirect(_) => cost := 2;
        case If => cost := 1;
        case Else | Loop | End => cost := 0;
        case Br(_) | BrIf(_) => cost := 1;
        case BrTable(_, _) => cost := 2;
        case Free => cost := 0;
        case Simple(_) => cost := 1;
      }
    }

    /** Calls, returns, jump tables and loop back edges. Every depth is in range. */
    method CheckAndSave(op: Op) returns (check: bool)
      requires DepthsOk(op, |scopeCosts|)
      ensures check == Checks(scopeCosts, op)
    {
      match op {
        case Call(_) | CallIndirect(_) | Return | BrTable(_, _) => check := true;
        case Br(depth) => check := scopeCosts[|scopeCosts| - 1 - depth].isLoop;
        case BrIf(depth) => check := scopeCosts[|scopeCosts| - 1 - depth].isLoop;
        case _ => check := false;
      }
    }

    /** What runs before an operator is translated. The caller owes an empty top scope in dead code. */
    method InstrumentPre(op: Op, builder: Builder, reachable: bool)
      requires scopeCosts != [] && DepthsOk(op, |scopeCosts|)
      requires !reachable ==> Top(scopeCosts) == 0
      modifies this, builder
      ensures scopeCosts == NextCosts(old(scopeCosts), op, reachable)
      ensures builder.code == old(builder.code) + Pre(old(scopeCosts), op, reachable)
    {
      var last := |scopeCosts| - 1;
      if reachable {
        CountReachable(op, builder);
      } else {
        assert scopeCosts[last].cost == 0;
      }
      match op {
        case CallIndirect(_) | Call(_) =>
          if reachable {
            SetTopCost(scopeCosts[last].cost + 1);
          }
        case Block | Loop | If => scopeCosts := scopeCosts + [ScopeInfo(0, op.Loop?)];
        case End => scopeCosts := scopeCosts[..last];
        case _ =>
      }
    }

    method InstrumentPost(op: Op, builder: Builder, reachable: bool)
      modifies builder
      ensures builder.code == old(builder.code) + Post(op, reachable)
    {
      if reachable && op.Calls() {
        builder.Emit(Load);
      }
    }
  }

  // ---- The walk over a body ----

  /** A valid body: every operator is allowed where it stands, and the last one closes the function. */
  ghost predicate NestedFrom(ops: seq<Op>, q: nat, t: Trans)
    requires q <= |ops|
    decreases |ops| - q
  {
    if q == |ops| then t.frames == [] else OpOk(t, ops[q]) && NestedFrom(ops, q + 1, TransStep(t, ops[q], q))
  }

  ghost predicate ValidBody(ops: seq<Op>) { NestedFrom(ops, 0, INIT_TRANS) }

  /** What has been compiled of a body up to `q`. */
  ghost predicate CompiledTo(ops: seq<Op>, states: seq<Static>, code: seq<seq<Item>>, q: nat) {
    && q <= |ops|
    && |states| == q + 1 && |code| == q
    && states[0] == INIT_STATIC
    && forall i: nat | i < q :: CompiledAt(ops, states, code, i)
  }

  ghost predicate CompiledAt(ops: seq<Op>, states: seq<Static>, code: seq<seq<Item>>, i: nat)
    requires i < |ops| && i + 1 < |states| && i < |code|
  {
    var s := states[i];
    && |s.costs| == |s.trans.frames|
    && OpOk(s.trans, ops[i])
    && Mirrors(s)
    && states[i + 1] == Next(s, ops[i], i)
    && code[i] == Emitted(s, ops[i], i, states[i + 1].trans.reach)
  }

  /** Translating one operator between the two hooks; the first one follows the prologue's load. */
  method TranslateOperator(info: FuncInfo, op: Op, q: nat, trans: Trans) returns (after: Trans, code: seq<Item>)
    requires Mirrors(Static(trans, info.scopeCosts)) && OpOk(trans, op)
    modifies info
    ensures Static(after, info.scopeCosts) == Next(Static(trans, old(info.scopeCosts)), op, q)
    ensures code == Emitted(Static(trans, old(info.scopeCosts)), op, q, after.reach)
  {
    hide TransStep, NextCosts, Pre, Post;
    ghost var costs := info.scopeCosts;
    var builder := new Builder();
    if q == 0 {
      builder.Emit(Load);
    }
    info.InstrumentPre(op, builder, trans.reach);
    if trans.reach {
      builder.Emit(Source);
    }
    after := TransStep(trans, op, q);
    info.InstrumentPost(op, builder, after.reach);
    code := builder.code;
    assert code == (if q == 0 then [Load] else []) + Pre(costs, op, trans.reach)
                   + (if trans.reach then [Source] else []) + Post(op, after.reach);
  }

  /** Compiling any valid body succeeds, and its code is what the pass is specified to emit. */
  method TranslateBody(ops: seq<Op>) returns (c: Compiled)
    requires ValidBody(ops)
    ensures c.Valid() && c.ops == ops
  {
    var info := new FuncInfo();
    var trans := INIT_TRANS;
    var states, code := [Static(trans, info.scopeCosts)], [];
    for q := 0 to |ops|
      invariant CompiledTo(ops, states, code, q)
      invariant states[q] == Static(trans, info.scopeCosts)
      invariant Mirrors(states[q])
      invariant NestedFrom(ops, q, trans)
    {
      var items;
      NextMirrors(states[q], ops[q], q);
      trans, items := TranslateOperator(info, ops[q], q, trans);
      ghost var was, had := states, code;
      states, code := states + [Static(trans, info.scopeCosts)], code + [items];
      Extends(ops, was, had, states, code, q);
    }
    c := Compiled(ops, states, code + [Epilogue(trans.reach)]);
    CompiledToIsValid(c, code);
  }

  lemma Extends(
      ops: seq<Op>, states: seq<Static>, code: seq<seq<Item>>, states': seq<Static>, code': seq<seq<Item>>, q: nat)
    requires CompiledTo(ops, states, code, q) && q < |ops| && Mirrors(states[q]) && OpOk(states[q].trans, ops[q])
    requires |states'| == q + 2 && |code'| == q + 1 && states'[..q + 1] == states && code'[..q] == code
    requires states'[q + 1] == Next(states[q], ops[q], q)
    requires code'[q] == Emitted(states[q], ops[q], q, states'[q + 1].trans.reach)
    ensures CompiledTo(ops, states', code', q + 1)
  {
    forall i: nat | i < q + 1
      ensures CompiledAt(ops, states', code', i)
    {
      assert states'[i] == states'[..q + 1][i];
      if i < q {
        assert CompiledAt(ops, states, code, i);
        assert code'[i] == code'[..q][i] && states'[i + 1] == states'[..q + 1][i + 1];
      }
    }
  }

  lemma CompiledToIsValid(c: Compiled, code: seq<seq<Item>>)
    requires CompiledTo(c.ops, c.states, code, |c.ops|)
    requires c.code == code + [Epilogue(c.states[|c.ops|].trans.reach)]
    requires c.states[|c.ops|].trans.frames == []
    ensures c.Valid()
  {
    forall q: nat | q < |c.ops|
      ensures c.StepAt(q)
    {
      assert CompiledAt(c.ops, c.states, code, q);
    }
  }

  /** Only valid bodies compile. */
  lemma {:induction false} CompiledIsValidBody(c: Compiled, q: nat)
    requires c.Valid() && q <= |c.ops|
    ensures NestedFrom(c.ops, q, c.states[q].trans)
    ensures q == 0 ==> ValidBody(c.ops)
    decreases |c.ops| - q
  {
    if q < |c.ops| {
      assert c.StepAt(q);
      CompiledIsValidBody(c, q + 1);
    }
  }

  /** There is only one way to compile a body. */
  lemma CompilationIsUnique(c: Compiled, d: Compiled)
    requires c.Valid() && d.Valid() && c.ops == d.ops
    ensures c == d
  {
    forall q: nat | q <= |c.ops|
      ensures c.states[q] == d.states[q] && c.code[q] == d.code[q]
    {
      SameState(c, d, q);
      if q < |c.ops| {
        assert c.StepAt(q) && d.StepAt(q);
        SameState(c, d, q + 1);
      }
    }
    assert c.states == d.states && c.code == d.code;
  }

  lemma {:induction false} SameState(c: Compiled, d: Compiled, q: nat)
    requires c.Valid() && d.Valid() && c.ops == d.ops && q <= |c.ops|
    ensures c.states[q] == d.states[q]
  {
    if q > 0 {
      assert c.StepAt(q - 1) && d.StepAt(q - 1);
      SameState(c, d, q - 1);
    }
  }

  // ---- What the pass may rely on ----

  /** An `End` right after an `End` closes its scope without touching the finished block. */
  lemma AdjacentEndsEmitNothing(c: Compiled, q: nat)
    requires c.Valid() && q + 1 < |c.ops| && c.ops[q].End? && c.ops[q + 1].End?
    ensures c.code[q + 1] == if c.states[q + 1].trans.reach then [Source] else []
  {
    assert c.StepAt(q) && c.StepAt(q + 1);
    NothingOwedAfter(c, q);
  }

  /** Dead code gets no code at all, and opens no debt. */
  lemma DeadCodeIsBare(c: Compiled, q: nat)
    requires c.Valid() && 0 < q < |c.ops| && !c.states[q].trans.reach
    ensures Top(c.states[q].costs) == 0
    ensures c.code[q] == []
  {
    assert c.StepAt(q);
    AlwaysMirrors(c, q);
  }

  /** No cost field outgrows the number of operators before it, so none can overflow its `u32`. */
  lemma {:induction false} CostsStaySmall(c: Compiled, q: nat)
    requires c.Valid() && q <= |c.ops|
    ensures Top(c.states[q].costs) <= q
    ensures FlushAt(c, q) <= q + 2
  {
    AlwaysMirrors(c, q);
    if q > 0 {
      CostsStaySmall(c, q - 1);
      CostStaysSmall(c, q - 1);
    }
  }

  lemma CostStaysSmall(c: Compiled, q: nat)
    requires c.Valid() && q < |c.ops| && Top(c.states[q].costs) <= q
    ensures Top(c.states[q + 1].costs) <= q + 1
  {
    assert c.StepAt(q);
    AlwaysMirrors(c, q);
    AlwaysMirrors(c, q + 1);
    if Flushes(c.ops[q]) && !c.ops[q].Calls() {
      NothingOwedAfter(c, q);
    }
  }
}
