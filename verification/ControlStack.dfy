/** What the pass knows at every position of a valid body, and why every place a run can reach
    is one the translator considered reachable. */
module ControlStack {
  import opened Wasm
  import opened Instrumentation

  function Opens(frames: seq<Frame>): (r: Labels)
    ensures |r| == |frames|
  {
    seq(|frames|, i requires 0 <= i < |frames| => frames[i].open)
  }

  /** `scope_costs` mirrors the control stack, only its top can owe anything, and nothing is owed
      in unreachable code. */
  ghost predicate Mirrors(s: Static) {
    var n := |s.trans.frames|;
    && |s.costs| == n
    && (forall i | 0 <= i < n :: s.costs[i].isLoop == s.trans.frames[i].kind.LoopScope?)
    && (forall i | 0 <= i < n - 1 :: s.costs[i].cost == 0)
    && (!s.trans.reach ==> Top(s.costs) == 0)
  }

  lemma NextMirrors(s: Static, op: Op, q: nat)
    requires OpOk(s.trans, op) && Mirrors(s)
    ensures Mirrors(Next(s, op, q))
  {
  }

  lemma {:induction false} AlwaysMirrors(c: Compiled, q: nat)
    requires c.Valid() && q <= |c.ops|
    ensures Mirrors(c.states[q])
  {
    if q > 0 {
      AlwaysMirrors(c, q - 1);
      assert c.StepAt(q - 1);
      NextMirrors(c.states[q - 1], c.ops[q - 1], q - 1);
    }
  }

  /** Code in a scope that was opened in dead code is dead. */
  ghost predicate DeadStaysDead(t: Trans) {
    var fs := t.frames;
    && (t.reach ==> forall i | 0 <= i < |fs| :: fs[i].headReach)
    && (forall i | 0 <= i < |fs| :: !fs[i].headReach ==> !fs[i].branched)
    && (forall i, j | 0 <= i < j < |fs| :: fs[j].headReach ==> fs[i].headReach)
  }

  lemma StepDeadStaysDead(t: Trans, op: Op, q: nat)
    requires OpOk(t, op) && DeadStaysDead(t)
    ensures DeadStaysDead(TransStep(t, op, q))
  {
  }

  lemma {:induction false} AlwaysDeadStaysDead(c: Compiled, q: nat)
    requires c.Valid() && q <= |c.ops|
    ensures DeadStaysDead(c.states[q].trans)
  {
    if q > 0 {
      AlwaysDeadStaysDead(c, q - 1);
      assert c.StepAt(q - 1);
      StepDeadStaysDead(c.states[q - 1].trans, c.ops[q - 1], q - 1);
    }
  }

  /** Scope `i` at position `q`: it was opened by the operator its label names, in the labels below it,
      and scanning for its `End` (or `Else`) from its opener or from here finds the same place. */
  ghost predicate ScopeOk(c: Compiled, q: nat, i: nat)
    requires c.Valid() && q <= |c.ops| && i < |c.states[q].trans.frames|
  {
    var fs := c.states[q].trans.frames;
    var f := fs[i];
    && -1 <= f.open < q
    && (i == 0 <==> f.open == -1)
    && (i == 0 ==> f.kind.BlockScope?)
    && (i > 0 ==>
        var o := c.states[f.open].trans;
        && c.ops[f.open].Opens()
        && (f.kind.LoopScope? <==> c.ops[f.open].Loop?)
        && (f.kind.BlockScope? <==> c.ops[f.open].Block?)
        && Opens(o.frames) == Opens(fs)[..i]
        && f.headReach == o.reach)
    && EndFrom(c.ops, f.open + 1, 0) == EndFrom(c.ops, q, |fs| - 1 - i)
    && (f.kind.ThenArm? ==> ElseFrom(c.ops, f.open + 1, 0) == ElseFrom(c.ops, q, |fs| - 1 - i))
  }

  /** A step leaves every scope but a closing one in place, and never unmarks its exit. */
  lemma StepKeepsScope(t: Trans, op: Op, q: nat, i: nat)
    requires OpOk(t, op) && i < |t.frames|
    ensures var fs, top := TransStep(t, op, q).frames, |t.frames| - 1;
            && (i >= |fs| <==> op.End? && i == top)
            && |fs| == |t.frames| + (if op.Opens() then 1 else if op.End? then -1 else 0)
            && (i < |fs| ==>
                && fs[i].open == t.frames[i].open
                && fs[i].headReach == t.frames[i].headReach
                && (t.frames[i].branched ==> fs[i].branched)
                && (if op.Else? && i == top then fs[i].kind.ElseArm? && fs[i].thenReach == t.reach
                    else fs[i].kind == t.frames[i].kind && fs[i].thenReach == t.frames[i].thenReach)
                && Opens(fs)[..i + 1] == Opens(t.frames)[..i + 1])
  {
  }

  /** Scanning on past one operator, with the scopes it opens or closes taken into account. */
  lemma ScanStep(ops: seq<Op>, q: nat, nest: nat)
    requires q < |ops|
    requires ops[q].End? ==> nest > 0
    ensures var m := nest + (if ops[q].Opens() then 1 else if ops[q].End? then -1 else 0);
            && EndFrom(ops, q, nest) == EndFrom(ops, q + 1, m)
            && (!(ops[q].Else? && nest == 0) ==> ElseFrom(ops, q, nest) == ElseFrom(ops, q + 1, m))
  {
  }

  lemma {:induction false} AlwaysScopeOk(c: Compiled, q: nat, i: nat)
    requires c.Valid() && q <= |c.ops| && i < |c.states[q].trans.frames|
    ensures ScopeOk(c, q, i)
  {
    if q > 0 {
      assert c.StepAt(q - 1);
      var was, op := c.states[q - 1].trans, c.ops[q - 1];
      var now := c.states[q].trans;
      assert now == TransStep(was, op, q - 1);
      if i < |was.frames| {
        AlwaysScopeOk(c, q - 1, i);
        KeepScopeOk(c, q - 1, i);
      } else {
        NewScopeOk(c, q - 1);
      }
    }
  }

  lemma KeepScopeOk(c: Compiled, q: nat, i: nat)
    requires c.Valid() && q < |c.ops|
    requires i < |c.states[q].trans.frames| && i < |c.states[q + 1].trans.frames|
    requires ScopeOk(c, q, i)
    ensures ScopeOk(c, q + 1, i)
  {
    assert c.StepAt(q);
    var t := c.states[q].trans;
    StepKeepsScope(t, c.ops[q], q, i);
    ScanStep(c.ops, q, |t.frames| - 1 - i);
    assert Opens(c.states[q + 1].trans.frames)[..i] == Opens(c.states[q + 1].trans.frames)[..i + 1][..i];
    assert Opens(t.frames)[..i] == Opens(t.frames)[..i + 1][..i];
  }

  lemma NewScopeOk(c: Compiled, q: nat)
    requires c.Valid() && q < |c.ops|
    requires |c.states[q].trans.frames| < |c.states[q + 1].trans.frames|
    ensures ScopeOk(c, q + 1, |c.states[q].trans.frames|)
  {
    assert c.StepAt(q);
    var t, now := c.states[q].trans, c.states[q + 1].trans;
    assert c.ops[q].Opens();
    assert Opens(now.frames)[..|t.frames|] == Opens(t.frames);
  }

  /** Every open scope is closed later, by the `End` the scan finds, with the labels below it intact. */
  lemma {:induction false} ScopeCloses(c: Compiled, q: nat, i: nat)
    requires c.Valid() && q <= |c.ops| && i < |c.states[q].trans.frames|
    ensures var fs := c.states[q].trans.frames;
            var e := EndFrom(c.ops, q, |fs| - 1 - i);
            && e < |c.ops| && c.ops[e].End?
            && var gs := c.states[e].trans.frames;
            && |gs| == i + 1
            && Opens(gs) == Opens(fs)[..i + 1]
            && ScopeGrows(fs[i], gs[i])
            && (fs[i].kind.ThenArm? && ElseFrom(c.ops, q, |fs| - 1 - i) == |c.ops| ==> gs[i].kind.ThenArm?)
    decreases |c.ops| - q
  {
    var t := c.states[q].trans;
    assert q < |c.ops|;
    assert c.StepAt(q);
    StepKeepsScope(t, c.ops[q], q, i);
    if c.ops[q].End? && i == |t.frames| - 1 {
      assert Opens(t.frames)[..i + 1] == Opens(t.frames);
    } else {
      ScanStep(c.ops, q, |t.frames| - 1 - i);
      ScopeCloses(c, q + 1, i);
    }
  }

  /** How a scope may have changed by the time it closes. */
  ghost predicate ScopeGrows(f: Frame, g: Frame) {
    && g.open == f.open
    && g.headReach == f.headReach
    && (f.branched ==> g.branched)
    && (f.kind.ThenArm? ==> g.kind.ThenArm? || g.kind.ElseArm?)
    && (!f.kind.ThenArm? ==> g.kind == f.kind && g.thenReach == f.thenReach)
  }

  /** An `If` whose scan finds an `Else` reaches it with its own scope on top. */
  lemma {:induction false} ElseFound(c: Compiled, q: nat, i: nat)
    requires c.Valid() && q <= |c.ops| && i < |c.states[q].trans.frames|
    requires c.states[q].trans.frames[i].kind.ThenArm?
    requires ElseFrom(c.ops, q, |c.states[q].trans.frames| - 1 - i) < |c.ops|
    ensures var fs := c.states[q].trans.frames;
            var e := ElseFrom(c.ops, q, |fs| - 1 - i);
            && c.ops[e].Else?
            && var gs := c.states[e].trans.frames;
            && |gs| == i + 1
            && Opens(gs) == Opens(fs)[..i + 1]
            && gs[i].headReach == fs[i].headReach
    decreases |c.ops| - q
  {
    var t := c.states[q].trans;
    assert c.StepAt(q);
    StepKeepsScope(t, c.ops[q], q, i);
    if i == |t.frames| - 1 && (c.ops[q].Else? || c.ops[q].End?) {
      assert Opens(t.frames)[..i + 1] == Opens(t.frames);
    } else {
      ScanStep(c.ops, q, |t.frames| - 1 - i);
      ElseFound(c, q + 1, i);
    }
  }

  // ---- Runs only visit reachable places, with exactly the static labels ----

  /** The translator considered this place reachable, and its scopes there are the run's labels. */
  ghost predicate WellPlaced(c: Compiled, at: Place)
    requires c.Valid()
  {
    && at.pc <= |c.ops|
    && c.states[at.pc].trans.reach
    && at.labels == Opens(c.states[at.pc].trans.frames)
  }

  /** A place to go on from: reachable, and either next in line or right after an operator that
      flushed. */
  ghost predicate Lands(c: Compiled, pc: nat, to: Place)
    requires c.Valid()
  {
    && WellPlaced(c, to)
    && (to.pc == pc + 1 || (to.pc > 0 && Flushes(c.ops[to.pc - 1]) && !c.ops[to.pc - 1].Calls()))
  }

  /** Operators that flush leave nothing to pay at the next position; a call leaves its return. */
  lemma NothingOwedAfter(c: Compiled, q: nat)
    requires c.Valid() && q < |c.ops| && Flushes(c.ops[q])
    requires c.ops[q].Calls() ==> !c.states[q].trans.reach
    ensures Top(c.states[q + 1].costs) == 0
  {
    assert c.StepAt(q);
    AlwaysMirrors(c, q);
    AlwaysMirrors(c, q + 1);
  }

  /** Where the exit of an open scope leads, and when the translator finds it reachable. */
  lemma LeaveScope(c: Compiled, q: nat, i: nat)
    requires c.Valid() && q <= |c.ops| && i < |c.states[q].trans.frames|
    ensures var fs := c.states[q].trans.frames;
            var t := EndFrom(c.ops, q, |fs| - 1 - i) + 1;
            && t <= |c.ops|
            && c.ops[t - 1].End?
            && Opens(c.states[t].trans.frames) == Opens(fs)[..i]
            && (fs[i].branched ==> c.states[t].trans.reach)
            && (fs[i].kind.ElseArm? && fs[i].thenReach && fs[i].headReach ==> c.states[t].trans.reach)
            && (fs[i].kind.ThenArm? && fs[i].headReach && ElseFrom(c.ops, q, |fs| - 1 - i) == |c.ops|
                ==> c.states[t].trans.reach)
  {
    var fs := c.states[q].trans.frames;
    ScopeCloses(c, q, i);
    var e := EndFrom(c.ops, q, |fs| - 1 - i);
    assert c.StepAt(e);
    assert Opens(c.states[e + 1].trans.frames) == Opens(c.states[e].trans.frames)[..i];
    assert Opens(fs)[..i + 1][..i] == Opens(fs)[..i];
  }

  lemma PlacesAreLabels(c: Compiled, q: nat)
    requires c.Valid() && q <= |c.ops|
    ensures PlaceIn(c.ops, Opens(c.states[q].trans.frames))
  {
    forall i | 0 <= i < |c.states[q].trans.frames|
      ensures -1 <= c.states[q].trans.frames[i].open < |c.ops|
    {
      AlwaysScopeOk(c, q, i);
    }
  }

  lemma ReachableFromLiveHeads(c: Compiled, q: nat, i: nat)
    requires c.Valid() && q <= |c.ops| && c.states[q].trans.reach && i < |c.states[q].trans.frames|
    ensures c.states[q].trans.frames[i].headReach
  {
    AlwaysDeadStaysDead(c, q);
  }

  /** Re-entering the loop that opened scope `i`. */
  lemma ReenterLoop(c: Compiled, q: nat, i: nat)
    requires c.Valid() && q <= |c.ops| && c.states[q].trans.reach && i < |c.states[q].trans.frames|
    requires c.states[q].trans.frames[i].kind.LoopScope?
    ensures var fs := c.states[q].trans.frames;
            && 0 <= fs[i].open < |c.ops| && c.ops[fs[i].open].Loop?
            && WellPlaced(c, Place(fs[i].open + 1, Opens(fs)[..i + 1]))
  {
    var fs := c.states[q].trans.frames;
    AlwaysScopeOk(c, q, i);
    ReachableFromLiveHeads(c, q, i);
    var open := fs[i].open;
    assert c.StepAt(open);
    assert Opens(c.states[open + 1].trans.frames) == Opens(c.states[open].trans.frames) + [open];
    assert Opens(fs)[..i + 1] == Opens(fs)[..i] + [open];
  }

  /** A reachable branch to the exit of scope `i`, which is not a loop. */
  lemma BranchLeaves(c: Compiled, q: nat, i: nat)
    requires c.Valid() && q < |c.ops| && c.states[q].trans.reach && i < |c.states[q].trans.frames|
    requires !c.states[q].trans.frames[i].kind.LoopScope?
    requires c.ops[q].BranchesTo(|c.states[q].trans.frames| - 1 - i)
    ensures var fs := c.states[q].trans.frames;
            && -1 <= fs[i].open < |c.ops|
            && var t := EndFrom(c.ops, fs[i].open + 1, 0) + 1;
            && WellPlaced(c, Place(t, Opens(fs)[..i]))
            && c.ops[t - 1].End?
  {
    var fs := c.states[q].trans.frames;
    assert c.StepAt(q);
    AlwaysScopeOk(c, q, i);
    ScanStep(c.ops, q, |fs| - 1 - i);
    var gs := c.states[q + 1].trans.frames;
    assert gs == Marked(fs, c.ops[q]);
    assert Opens(gs) == Opens(fs);
    hide TransStep, NextCosts, Emitted, OpOk, Marked, ElseFrom;
    LeaveScope(c, q + 1, i);
  }

  /** Any taken branch lands on a reachable place. */
  lemma BranchStays(c: Compiled, at: Place, depth: nat)
    requires c.Valid() && WellPlaced(c, at) && at.pc < |c.ops|
    requires PlaceIn(c.ops, at.labels) && depth < |at.labels| && c.ops[at.pc].BranchesTo(depth)
    ensures Lands(c, at.pc, Branch(c.ops, at.labels, depth))
  {
    var q := at.pc;
    var fs := c.states[q].trans.frames;
    var i := |fs| - 1 - depth;
    assert at.labels[i] == fs[i].open;
    if fs[i].kind.LoopScope? {
      ReenterLoop(c, q, i);
    } else {
      AlwaysScopeOk(c, q, i);
      BranchLeaves(c, q, i);
    }
  }

  /** Any operator that stays in its activation leads from a reachable place to a reachable place,
      and every place it can jump to comes right after an operator that flushed. */
  lemma TransferStays(c: Compiled, at: Place, choice: nat)
    requires c.Valid() && WellPlaced(c, at) && at.pc < |c.ops|
    requires PlaceIn(c.ops, at.labels) && IsLocal(c.ops[at.pc]) && DepthsOk(c.ops[at.pc], |at.labels|)
    ensures Lands(c, at.pc, Transfer(c.ops, at, choice))
  {
    var op := c.ops[at.pc];
    hide EndFrom, ElseFrom, Branch, OpOk, Opens, Lands;
    match op
    case Br(d) => BranchStays(c, at, d);
    case BrTable(_, _) => BranchStays(c, at, BrTableDepth(op, choice));
    case BrIf(d) =>
      NextStays(c, at);
      if choice != 0 {
        BranchStays(c, at, d);
      }
    case If => IfStays(c, at, choice);
    case Else => ThenArmEnds(c, at.pc);
    case _ => NextStays(c, at);
  }

  lemma IfStays(c: Compiled, at: Place, choice: nat)
    requires c.Valid() && WellPlaced(c, at) && at.pc < |c.ops| && c.ops[at.pc].If? && PlaceIn(c.ops, at.labels)
    ensures Lands(c, at.pc, Transfer(c.ops, at, choice))
  {
    hide EndFrom, ElseFrom, OpOk, Opens, Branch;
    NextStays(c, at);
    FalseIfStays(c, at.pc);
  }

  /** Falling through to the next operator. */
  lemma NextStays(c: Compiled, at: Place)
    requires c.Valid() && WellPlaced(c, at) && at.pc < |c.ops|
    requires var op := c.ops[at.pc]; !op.Else? && !op.Br? && !op.BrTable? && !op.Return? && !op.Unreachable?
    ensures var op := c.ops[at.pc];
            && (op.End? ==> |at.labels| > 0)
            && Lands(c, at.pc, Place(at.pc + 1,
                                     if op.Opens() then at.labels + [at.pc]
                                     else if op.End? then at.labels[..|at.labels| - 1]
                                     else at.labels))
  {
    assert c.StepAt(at.pc);
    var fs, gs := c.states[at.pc].trans.frames, c.states[at.pc + 1].trans.frames;
    if c.ops[at.pc].Opens() {
      assert Opens(gs) == Opens(fs) + [at.pc];
    } else if c.ops[at.pc].End? {
      assert Opens(gs) == Opens(fs)[..|fs| - 1];
    } else {
      assert Opens(gs) == Opens(fs);
    }
  }

  lemma ThenArmEnds(c: Compiled, q: nat)
    requires c.Valid() && q < |c.ops| && c.states[q].trans.reach && c.ops[q].Else?
    requires |c.states[q].trans.frames| > 0
    ensures var fs := c.states[q].trans.frames;
            && -1 <= fs[|fs| - 1].open < |c.ops|
            && var t := EndFrom(c.ops, fs[|fs| - 1].open + 1, 0) + 1;
            && Lands(c, q, Place(t, Opens(fs)[..|fs| - 1]))
  {
    var fs := c.states[q].trans.frames;
    var i := |fs| - 1;
    assert c.StepAt(q);
    AlwaysScopeOk(c, q, i);
    ReachableFromLiveHeads(c, q, i);
    ScanStep(c.ops, q, 0);
    LeaveScope(c, q + 1, i);
    assert Opens(c.states[q + 1].trans.frames)[..i] == Opens(fs)[..i];
  }

  /** A false `if` continues after its `else` if it has one, else after its `end`. */
  lemma FalseIfStays(c: Compiled, q: nat)
    requires c.Valid() && q < |c.ops| && c.states[q].trans.reach && c.ops[q].If?
    ensures var labels := Opens(c.states[q].trans.frames);
            var e, t := ElseFrom(c.ops, q + 1, 0), EndFrom(c.ops, q + 1, 0);
            if e < |c.ops| then c.ops[e].Else? && WellPlaced(c, Place(e + 1, labels + [q]))
            else t < |c.ops| && c.ops[t].End? && WellPlaced(c, Place(t + 1, labels))
  {
    var fs := c.states[q].trans.frames;
    assert c.StepAt(q);
    var gs := c.states[q + 1].trans.frames;
    assert gs == fs + [Frame(q, ThenArm, true, false, false)];
    assert Opens(gs) == Opens(fs) + [q];
    var e := ElseFrom(c.ops, q + 1, 0);
    if e < |c.ops| {
      ElseFound(c, q + 1, |fs|);
      ElseEntered(c, e);
      assert Opens(gs)[..|fs| + 1] == Opens(gs);
    } else {
      LeaveScope(c, q + 1, |fs|);
      assert Opens(gs)[..|fs|] == Opens(fs);
    }
  }

  lemma ElseEntered(c: Compiled, e: nat)
    requires c.Valid() && e < |c.ops| && c.ops[e].Else?
    ensures var t, u := c.states[e].trans, c.states[e + 1].trans;
            && |t.frames| > 0
            && u.reach == t.frames[|t.frames| - 1].headReach
            && Opens(u.frames) == Opens(t.frames)
  {
    assert c.StepAt(e);
    assert Opens(c.states[e + 1].trans.frames) == Opens(c.states[e].trans.frames);
  }
}
