/** What the pass emits, told from the operators of a body alone: which positions control can reach, which
    operators are checked, and what has not been flushed before each of them. */
module EmittedCode {
  import opened Wasm
  import opened Instrumentation
  import opened ControlStack
  import opened CodeShape

  // ---- Reachability ----

  function LabelsAt(c: Compiled, q: nat): Labels
    requires q < |c.states|
  {
    Opens(c.states[q].trans.frames)
  }

  /** Control can go from `p` to `q` within an activation. A call comes back behind itself. */
  ghost predicate Flows(c: Compiled, p: nat, choice: nat, q: nat)
    requires c.Valid() && p < |c.ops|
  {
    var op, labels := c.ops[p], LabelsAt(c, p);
    && PlaceIn(c.ops, labels) && DepthsOk(op, |labels|)
    && if op.Calls() then q == p + 1 else IsLocal(op) && Transfer(c.ops, Place(p, labels), choice).pc == q
  }

  ghost predicate ComesFrom(c: Compiled, p: nat, choice: nat, q: nat)
    requires c.Valid()
  {
    p < |c.ops| && p < q && c.states[p].trans.reach && Flows(c, p, choice, q)
  }

  /** Some reachable branch before `q` leaves the scope `i` that is open at `q`. */
  ghost predicate BranchedAt(c: Compiled, q: nat, i: nat, p: nat)
    requires c.Valid() && q <= |c.ops| && i < |c.states[q].trans.frames|
  {
    && p < q && c.states[p].trans.reach
    && var fs := c.states[p].trans.frames;
    && i < |fs| && fs[i].open == c.states[q].trans.frames[i].open
    && !fs[i].kind.LoopScope? && c.ops[p].BranchesTo(|fs| - 1 - i)
  }

  lemma {:induction false} BranchBefore(c: Compiled, q: nat, i: nat) returns (p: nat)
    requires c.Valid() && q <= |c.ops| && i < |c.states[q].trans.frames| && c.states[q].trans.frames[i].branched
    ensures BranchedAt(c, q, i, p)
  {
    assert q > 0;
    assert c.StepAt(q - 1);
    var was := c.states[q - 1].trans;
    assert i < |was.frames|;
    StepKeepsScope(was, c.ops[q - 1], q - 1, i);
    p := q - 1;
    if was.frames[i].branched {
      p := BranchBefore(c, q - 1, i);
    }
  }

  /** The end of the `then` arm of the scope `i`, whose `else` arm is open at `q`. */
  ghost predicate ElseAt(c: Compiled, q: nat, i: nat, p: nat)
    requires c.Valid() && q <= |c.ops| && i < |c.states[q].trans.frames|
  {
    && p < q && c.states[p].trans.reach && c.ops[p].Else?
    && var fs := c.states[p].trans.frames;
    |fs| == i + 1 && fs[i].open == c.states[q].trans.frames[i].open
  }

  lemma {:induction false} ElseBefore(c: Compiled, q: nat, i: nat) returns (p: nat)
    requires c.Valid() && q <= |c.ops| && i < |c.states[q].trans.frames|
    requires c.states[q].trans.frames[i].kind.ElseArm? && c.states[q].trans.frames[i].thenReach
    ensures ElseAt(c, q, i, p)
  {
    assert q > 0;
    assert c.StepAt(q - 1);
    var was := c.states[q - 1].trans;
    assert i < |was.frames|;
    StepKeepsScope(was, c.ops[q - 1], q - 1, i);
    p := q - 1;
    if was.frames[i].kind.ElseArm? && !(c.ops[q - 1].Else? && i == |was.frames| - 1) {
      p := ElseBefore(c, q - 1, i);
    }
  }

  /** Some choice takes a branch to any label it may name. */
  function ChoiceFor(op: Op, d: nat): (choice: nat)
    requires op.BranchesTo(d)
    ensures op.BrTable? ==> BrTableDepth(op, choice) == d
    ensures op.BrIf? ==> choice != 0
  {
    if op.BrIf? then 1
    else if op.BrTable? && d != op.default then Position(op.depths, d)
    else if op.BrTable? then |op.depths|
    else 0
  }

  function Position(ds: seq<nat>, d: nat): (k: nat)
    requires d in ds
    ensures k < |ds| && ds[k] == d
  {
    if ds[0] == d then 0 else 1 + Position(ds[1..], d)
  }

  /** The scope that is about to end, seen from where it was opened. */
  lemma Ending(c: Compiled, q: nat, i: nat)
    requires c.Valid() && q < |c.ops| && i == |c.states[q].trans.frames| - 1 && (c.ops[q].End? || c.ops[q].Else?)
    ensures var f := c.states[q].trans.frames[i];
            && -1 <= f.open < q
            && (c.ops[q].End? ==> EndFrom(c.ops, f.open + 1, 0) == q)
            && (!f.kind.LoopScope? && f.open >= 0 ==> !c.ops[f.open].Loop?)
            && (f.kind.ThenArm? ==>
                && f.open >= 0 && c.ops[f.open].If? && f.headReach == c.states[f.open].trans.reach
                && ElseFrom(c.ops, f.open + 1, 0) == if c.ops[q].Else? then q else |c.ops|)
  {
    AlwaysScopeOk(c, q, i);
    hide OpOk, TransStep, NextCosts, Emitted;
  }

  lemma TakenBranch(c: Compiled, p: nat, i: nat, q: nat)
    requires c.Valid() && q < |c.ops| && c.ops[q].End? && i == |c.states[q].trans.frames| - 1
    requires BranchedAt(c, q, i, p)
    ensures ComesFrom(c, p, ChoiceFor(c.ops[p], |c.states[p].trans.frames| - 1 - i), q + 1)
  {
    hide Branch, EndFrom, ElseFrom, TransStep, NextCosts, Emitted, ChoiceFor;
    PlacesAreLabels(c, p);
    BranchTarget(c, p, i, q);
    DepthsAreOk(c, p);
    var op := c.ops[p];
    var d := |c.states[p].trans.frames| - 1 - i;
    assert Transfer(c.ops, Place(p, LabelsAt(c, p)), ChoiceFor(op, d)).pc == q + 1;
  }

  lemma DepthsAreOk(c: Compiled, q: nat)
    requires c.Valid() && q < |c.ops|
    ensures DepthsOk(c.ops[q], |c.states[q].trans.frames|)
  {
    assert c.StepAt(q);
  }

  lemma BranchTarget(c: Compiled, p: nat, i: nat, q: nat)
    requires c.Valid() && q < |c.ops| && c.ops[q].End? && i == |c.states[q].trans.frames| - 1
    requires BranchedAt(c, q, i, p) && PlaceIn(c.ops, LabelsAt(c, p))
    ensures Branch(c.ops, LabelsAt(c, p), |c.states[p].trans.frames| - 1 - i).pc == q + 1
  {
    Ending(c, q, i);
    LoopsStayLoops(c, p, i);
    assert LabelsAt(c, p)[i] == c.states[p].trans.frames[i].open;
    hide EndFrom, ElseFrom;
  }

  lemma LoopsStayLoops(c: Compiled, q: nat, i: nat)
    requires c.Valid() && q <= |c.ops| && i < |c.states[q].trans.frames|
    ensures var f := c.states[q].trans.frames[i];
            -1 <= f.open < q && (f.kind.LoopScope? <==> f.open >= 0 && c.ops[f.open].Loop?)
  {
    AlwaysScopeOk(c, q, i);
  }

  lemma TakenElse(c: Compiled, p: nat, i: nat, q: nat)
    requires c.Valid() && q < |c.ops| && c.ops[q].End? && i == |c.states[q].trans.frames| - 1
    requires ElseAt(c, q, i, p)
    ensures ComesFrom(c, p, 0, q + 1)
  {
    Ending(c, q, i);
    PlacesAreLabels(c, p);
    assert c.StepAt(p);
    hide EndFrom, ElseFrom, TransStep, NextCosts, Emitted;
    assert LabelsAt(c, p)[i] == c.states[p].trans.frames[i].open;
  }

  /** A false `if` goes on behind the `else` or, without one, behind the `end` of its scope. */
  lemma FalseIf(c: Compiled, q: nat) returns (p: nat)
    requires c.Valid() && q < |c.ops| && |c.states[q].trans.frames| > 0
    requires var f := c.states[q].trans.frames[|c.states[q].trans.frames| - 1];
             f.kind.ThenArm? && f.headReach && (c.ops[q].Else? || c.ops[q].End?)
    ensures ComesFrom(c, p, 0, q + 1)
  {
    Ending(c, q, |c.states[q].trans.frames| - 1);
    p := c.states[q].trans.frames[|c.states[q].trans.frames| - 1].open;
    PlacesAreLabels(c, p);
    hide EndFrom, ElseFrom;
  }

  lemma FallsThrough(c: Compiled, q: nat)
    requires c.Valid() && q < |c.ops| && c.states[q].trans.reach && c.states[q + 1].trans.reach && !c.ops[q].Else?
    ensures ComesFrom(c, q, if c.ops[q].If? then 1 else 0, q + 1)
  {
    assert c.StepAt(q);
    PlacesAreLabels(c, q);
    hide EndFrom, ElseFrom, NextCosts, Emitted;
  }

  /** What the translator finds reachable is what control can reach: the start, and wherever it can go from a
      reachable operator before. */
  lemma ReachabilityIsExact(c: Compiled, q: nat)
    requires c.Valid() && q <= |c.ops|
    ensures c.states[q].trans.reach <==> q == 0 || exists p: nat, choice: nat :: ComesFrom(c, p, choice, q)
  {
    hide Flows;
    if q > 0 && c.states[q].trans.reach {
      var p, choice := Predecessor(c, q - 1);
    }
    if p: nat, choice: nat :| ComesFrom(c, p, choice, q) {
      GoesWhereReachable(c, p, choice, q);
    }
  }

  lemma Predecessor(c: Compiled, q: nat) returns (p: nat, choice: nat)
    requires c.Valid() && q < |c.ops| && c.states[q + 1].trans.reach
    ensures ComesFrom(c, p, choice, q + 1)
  {
    hide EndFrom, ElseFrom, NextCosts, Emitted, ComesFrom;
    assert c.StepAt(q);
    var t, op := c.states[q].trans, c.ops[q];
    var i := |t.frames| - 1;
    if op.Else? {
      choice := 0;
      p := FalseIf(c, q);
    } else if t.reach {
      p, choice := q, if op.If? then 1 else 0;
      FallsThrough(c, q);
    } else if t.frames[i].branched {
      p := BranchBefore(c, q, i);
      choice := ChoiceFor(c.ops[p], |c.states[p].trans.frames| - 1 - i);
      TakenBranch(c, p, i, q);
    } else if t.frames[i].kind.ThenArm? {
      choice := 0;
      p := FalseIf(c, q);
    } else {
      choice := 0;
      p := ElseBefore(c, q, i);
      TakenElse(c, p, i, q);
    }
  }

  lemma GoesWhereReachable(c: Compiled, p: nat, choice: nat, q: nat)
    requires c.Valid() && p < |c.ops| && q <= |c.ops| && c.states[p].trans.reach && Flows(c, p, choice, q)
    ensures c.states[q].trans.reach
  {
    var at := Place(p, LabelsAt(c, p));
    hide Transfer;
    if c.ops[p].Calls() {
      NextStays(c, at);
    } else {
      TransferStays(c, at, choice);
    }
  }

  // ---- Checks ----

  /** A branch goes backwards exactly if its label is a loop's. */
  lemma BackwardsIsLoop(c: Compiled, q: nat, d: nat)
    requires c.Valid() && q < |c.ops| && d < |LabelsAt(c, q)|
    ensures PlaceIn(c.ops, LabelsAt(c, q))
    ensures var fs := c.states[q].trans.frames;
            && |c.states[q].costs| == |fs|
            && c.states[q].costs[|fs| - 1 - d].isLoop == (Branch(c.ops, LabelsAt(c, q), d).pc <= q)
  {
    var i := |LabelsAt(c, q)| - 1 - d;
    PlacesAreLabels(c, q);
    AlwaysScopeOk(c, q, i);
    AlwaysMirrors(c, q);
    assert LabelsAt(c, q)[i] == c.states[q].trans.frames[i].open;
  }

  /** Calls, returns and jump tables are checked, and those branches that go backwards. */
  ghost predicate NeedsCheck(c: Compiled, q: nat)
    requires c.Valid() && q < |c.ops|
  {
    var op, labels := c.ops[q], LabelsAt(c, q);
    || op.Call? || op.CallIndirect? || op.Return? || op.BrTable?
    || ((op.Br? || op.BrIf?) && PlaceIn(c.ops, labels) && op.depth < |labels|
        && Branch(c.ops, labels, op.depth).pc <= q)
  }

  lemma CheckedIfNeeded(c: Compiled, q: nat)
    requires c.Valid() && q < |c.ops| && Depths(c, q)
    ensures ChecksAt(c, q) <==> NeedsCheck(c, q)
  {
    if c.ops[q].Br? || c.ops[q].BrIf? {
      BackwardsIsLoop(c, q, c.ops[q].depth);
    }
    hide Branch;
  }

  /** Where the guest may be made to yield: the code of a reachable operator holds the yield exactly if the
      operator is a call, a return or a jump table, or a branch that goes backwards. */
  lemma YieldsWhereNeeded(c: Compiled, q: nat)
    requires c.Valid() && q < |c.ops| && c.states[q].trans.reach
    ensures Yield in c.code[q] <==> NeedsCheck(c, q)
  {
    DepthsFit(c, q);
    hide NeedsCheck;
    CheckedIfNeeded(c, q);
    Shape(c, q);
    if ChecksAt(c, q) {
      assert c.code[q][CheckAt(c, q) + 3] == Yield;
    }
  }

  // ---- What is owed ----

  /** What the operators before `q` count that nothing has flushed: back to the last operator that may divide
      control, and one for the return of a call. */
  function Unflushed(ops: seq<Op>, q: nat): nat
    requires q <= |ops|
  {
    if q == 0 then 0
    else match ops[q - 1]
      case Free | Simple(_) => Unflushed(ops, q - 1) + OpCost(ops[q - 1])
      case Call(_) | CallIndirect(_) => 1
      case _ => 0
  }

  lemma {:induction false} OwesTheRun(c: Compiled, q: nat)
    requires c.Valid() && q <= |c.ops| && c.states[q].trans.reach
    ensures Owing(c, q) == Unflushed(c.ops, q)
  {
    if q > 0 {
      assert c.StepAt(q - 1);
      var op := c.ops[q - 1];
      if op.Free? || op.Simple? {
        OwesTheRun(c, q - 1);
      } else if !op.Calls() {
        NothingOwedAfter(c, q - 1);
      }
      AlwaysMirrors(c, q - 1);
    }
  }

  /** The code of every operator, from the body alone: dead code has none; a reachable operator that may divide
      control is preceded by one addition of everything unflushed and its own price, unless that is nothing,
      and by the check if it needs one; a call is followed by a reload. */
  lemma CodeIsDetermined(c: Compiled, q: nat)
    requires c.Valid() && q < |c.ops|
    ensures var op := c.ops[q];
            var n := Unflushed(c.ops, q) + OpCost(op);
            c.code[q] ==
            if !c.states[q].trans.reach then []
            else
              (if q == 0 then [Load] else [])
              + (if op.Free? || op.Simple? || n == 0 then [] else [AddCount(n)])
              + (if NeedsCheck(c, q) then [Save, SkipIfNegative(3), Save, Yield, Load] else [])
              + [Source]
              + (if op.Call? || op.CallIndirect? then [Load] else [])
    ensures c.code[|c.ops|] == if c.states[|c.ops|].trans.reach then [Save, Source] else []
  {
    assert c.StepAt(q);
    assert c.states[0].trans.reach;
    hide NeedsCheck, Unflushed, NextCosts, TransStep, OpOk;
    if c.states[q].trans.reach {
      LiveCode(c, q);
    }
  }

  lemma LiveCode(c: Compiled, q: nat)
    requires c.Valid() && q < |c.ops| && c.states[q].trans.reach
    ensures var op := c.ops[q];
            var n := Unflushed(c.ops, q) + OpCost(op);
            c.code[q] ==
              (if q == 0 then [Load] else [])
              + (if op.Free? || op.Simple? || n == 0 then [] else [AddCount(n)])
              + (if NeedsCheck(c, q) then [Save, SkipIfNegative(3), Save, Yield, Load] else [])
              + [Source]
              + (if op.Call? || op.CallIndirect? then [Load] else [])
  {
    assert c.StepAt(q);
    assert c.ops[q].Calls() ==> c.states[q + 1].trans.reach;
    hide NeedsCheck, Unflushed, NextCosts, TransStep, OpOk, Mirrors, Pre, Checks;
    DepthsFit(c, q);
    CheckedIfNeeded(c, q);
    OwesTheRun(c, q);
    PreIs(c.states[q].costs, c.ops[q]);
  }

  lemma PreIs(costs: seq<ScopeInfo>, op: Op)
    requires DepthsOk(op, |costs|)
    ensures Pre(costs, op, true) ==
            (if op.Free? || op.Simple? || Top(costs) + OpCost(op) == 0 then []
             else [AddCount(Top(costs) + OpCost(op))])
            + (if Checks(costs, op) then [Save, SkipIfNegative(3), Save, Yield, Load] else [])
  {
  }
}
