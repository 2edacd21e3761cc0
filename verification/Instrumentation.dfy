/** The instruction-counting pass as a specification on values: what it emits around every operator of a
    function body. The pass that does so in place is in `FuncInfo`. */
module Instrumentation {
  import opened Wasm

  // ---- The translator's control stack ----

  datatype Kind = BlockScope | LoopScope | ThenArm | ElseArm

  /** An open scope. `open` is the position of its opener (-1 for the function itself),
      `headReach` whether that opener could be reached, `thenReach` whether the finished `then`
      arm could reach its end, `branched` whether some reachable branch leaves through its exit. */
  datatype Frame = Frame(open: int, kind: Kind, headReach: bool, thenReach: bool, branched: bool)

  /** `reach` is what `FuncTranslationState::reachable` answers before the next operator. */
  datatype Trans = Trans(frames: seq<Frame>, reach: bool)

  const INIT_TRANS: Trans := Trans([Frame(-1, BlockScope, true, false, false)], true)

  predicate OpOk(t: Trans, op: Op) {
    && |t.frames| > 0
    && DepthsOk(op, |t.frames|)
    && (op.Else? ==> t.frames[|t.frames| - 1].kind.ThenArm?)
  }

  /** A reachable branch marks the scopes it may leave; a loop is re-entered, not left. */
  function Marked(frames: seq<Frame>, op: Op): (r: seq<Frame>)
    ensures |r| == |frames|
    ensures forall i | 0 <= i < |frames| :: r[i] == frames[i].(branched :=
              frames[i].branched || (op.BranchesTo(|frames| - 1 - i) && !frames[i].kind.LoopScope?))
  {
    seq(|frames|, i requires 0 <= i < |frames| => frames[i].(branched :=
      frames[i].branched || (op.BranchesTo(|frames| - 1 - i) && !frames[i].kind.LoopScope?)))
  }

  function KindOf(op: Op): Kind {
    match op
    case Loop => LoopScope
    case If => ThenArm
    case _ => BlockScope
  }

  predicate ReachableAfterEnd(f: Frame, reach: bool) {
    || reach
    || f.branched
    || (f.kind.ThenArm? && f.headReach)
    || (f.kind.ElseArm? && f.headReach && f.thenReach)
  }

  /** How translating the operator at position `q` changes the control stack. */
  function TransStep(t: Trans, op: Op, q: nat): Trans
    requires OpOk(t, op)
  {
    var n := |t.frames|;
    var top := t.frames[n - 1];
    match op
    case Block | Loop | If =>
      Trans(t.frames + [Frame(q, KindOf(op), t.reach, false, false)], t.reach)
    case Else =>
      Trans(t.frames[n - 1 := top.(kind := ElseArm, thenReach := t.reach)], top.headReach)
    case End =>
      Trans(t.frames[..n - 1], ReachableAfterEnd(top, t.reach))
    case Br(_) => Trans(if t.reach then Marked(t.frames, op) else t.frames, false)
    case BrTable(_, _) => Trans(if t.reach then Marked(t.frames, op) else t.frames, false)
    case BrIf(_) => Trans(if t.reach then Marked(t.frames, op) else t.frames, t.reach)
    case Return | Unreachable => Trans(t.frames, false)
    case _ => t
  }

  // ---- What the pass does at one operator ----

  datatype ScopeInfo = ScopeInfo(cost: nat, isLoop: bool)

  /** Emitted code. `SkipIfNegative(n)` jumps over the next `n` items when the counter variable is
      negative; `Yield` is the bound-expiration hostcall; `Source` stands for the operator's own code. */
  datatype Item = AddCount(n: nat) | Save | Load | SkipIfNegative(n: nat) | Yield | Source

  function Top(costs: seq<ScopeInfo>): nat {
    if costs == [] then 0 else costs[|costs| - 1].cost
  }

  function WithTop(costs: seq<ScopeInfo>, cost: nat): seq<ScopeInfo>
    requires costs != []
  {
    costs[|costs| - 1 := costs[|costs| - 1].(cost := cost)]
  }

  predicate Flushes(op: Op) { !op.Free? && !op.Simple? }

  /** Calls, returns, jump tables and loop back edges save the counter and check the bound. */
  predicate Checks(costs: seq<ScopeInfo>, op: Op)
    requires DepthsOk(op, |costs|)
  {
    match op
    case Call(_) | CallIndirect(_) | Return | BrTable(_, _) => true
    case Br(d) => costs[|costs| - 1 - d].isLoop
    case BrIf(d) => costs[|costs| - 1 - d].isLoop
    case _ => false
  }

  const CHECK: seq<Item> := [Save, SkipIfNegative(3), Save, Yield, Load]

  function Pre(costs: seq<ScopeInfo>, op: Op, reach: bool): seq<Item>
    requires DepthsOk(op, |costs|)
  {
    if !reach || !Flushes(op) then []
    else
      var cost := Top(costs) + OpCost(op);
      (if cost == 0 then [] else [AddCount(cost)]) + (if Checks(costs, op) then CHECK else [])
  }

  function Post(op: Op, reach: bool): seq<Item> {
    if reach && op.Calls() then [Load] else []
  }

  function NextCosts(costs: seq<ScopeInfo>, op: Op, reach: bool): seq<ScopeInfo>
    requires costs != []
  {
    var flushed :=
      if !reach then costs
      else WithTop(costs, if Flushes(op) then 0 else Top(costs) + OpCost(op));
    match op
    case Call(_) | CallIndirect(_) => if reach then WithTop(flushed, Top(flushed) + 1) else flushed
    case Block | Loop | If => flushed + [ScopeInfo(0, op.Loop?)]
    case End => flushed[..|flushed| - 1]
    case _ => flushed
  }

  // ---- The pass over a whole body ----

  datatype Static = Static(trans: Trans, costs: seq<ScopeInfo>)

  const INIT_STATIC: Static := Static(INIT_TRANS, [ScopeInfo(0, false)])

  function Next(s: Static, op: Op, q: nat): (r: Static)
    requires |s.costs| == |s.trans.frames|
    ensures |r.costs| == |r.trans.frames|
  {
    if OpOk(s.trans, op)
    then Static(TransStep(s.trans, op, q), NextCosts(s.costs, op, s.trans.reach))
    else s
  }

  /** The code emitted for the operator at `q`. Nothing is emitted where the translator cannot reach. */
  function Emitted(s: Static, op: Op, q: nat, reachAfter: bool): seq<Item>
    requires |s.costs| == |s.trans.frames|
    requires OpOk(s.trans, op)
  {
    (if q == 0 then [Load] else [])
    + Pre(s.costs, op, s.trans.reach)
    + (if s.trans.reach then [Source] else [])
    + Post(op, reachAfter)
  }

  function Epilogue(reach: bool): seq<Item> {
    if reach then [Save, Source] else []
  }

  /** A compiled body. `states[q]` is the translator and pass state before the operator at `q`, `code[q]`
      is what was emitted for it, and `code[|ops|]` is the epilogue. */
  datatype Compiled = Compiled(ops: seq<Op>, states: seq<Static>, code: seq<seq<Item>>) {
    ghost predicate Shaped() {
      && |states| == |ops| + 1
      && |code| == |ops| + 1
      && states[0] == INIT_STATIC
      && states[|ops|].trans.frames == []
      && code[|ops|] == Epilogue(states[|ops|].trans.reach)
    }

    ghost predicate StepAt(q: nat)
      requires Shaped() && q < |ops|
    {
      var s := states[q];
      && |s.costs| == |s.trans.frames|
      && OpOk(s.trans, ops[q])
      && states[q + 1] == Next(s, ops[q], q)
      && code[q] == Emitted(s, ops[q], q, states[q + 1].trans.reach)
    }

    /** Every operator is allowed where it stands, the last one closes the function, and the
        code is what the pass emits. */
    ghost predicate Valid() {
      Shaped() && forall q: nat | q < |ops| :: StepAt(q)
    }
  }
}
