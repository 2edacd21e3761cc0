/** Every execution slice is finite: once a bound is set, the guest comes back to the host after
    a bounded number of steps, and it overshoots by no more than what its open activations cost. */
module Slices {
  import opened Int64
  import opened Wasm
  import opened Instrumentation
  import opened ControlStack
  import opened CodeShape
  import opened Target
  import opened ExactCount
  import opened Counting
  import EmittedCode

  // ---- What is left of an activation if it only moves forward ----

  /** Steps left in the code from the operator at `pc` on. */
  function Left(c: Compiled, pc: nat): nat
    requires pc <= |c.code|
    decreases |c.code| - pc
  {
    if pc == |c.code| then 0 else |c.code[pc]| + 1 + Left(c, pc + 1)
  }

  /** What the reference charges for an operator, the return of a call included. */
  function Charge(op: Op): nat {
    OpCost(op) + if op.Calls() then 1 else 0
  }

  function Rest(c: Compiled, pc: nat): nat
    decreases |c.ops| - pc
  {
    if pc >= |c.ops| then 0 else Charge(c.ops[pc]) + Rest(c, pc + 1)
  }

  /** The static cost of a whole body. */
  function BodyCost(c: Compiled): nat { Rest(c, 0) }

  lemma {:induction false} LeftShrinks(c: Compiled, p: nat, q: nat)
    requires p <= q <= |c.code|
    ensures Left(c, q) <= Left(c, p)
    ensures p < q ==> Left(c, q) + |c.code[p]| + 1 <= Left(c, p)
    decreases q - p
  {
    if p < q {
      LeftShrinks(c, p + 1, q);
    }
  }

  lemma {:induction false} RestShrinks(c: Compiled, p: nat, q: nat)
    requires p <= q
    ensures Rest(c, q) <= Rest(c, p)
    ensures p < q && p < |c.ops| ==> Rest(c, q) + Charge(c.ops[p]) <= Rest(c, p)
    decreases q - p
  {
    if p < q {
      RestShrinks(c, p + 1, q);
    }
  }

  predicate InCode(code: seq<Compiled>, f: CallFrame) {
    f.func < |code| && f.at.pc < |code[f.func].code|
  }

  function FrameLeft(code: seq<Compiled>, f: CallFrame): int {
    if InCode(code, f) then Left(code[f.func], f.at.pc) - f.k else 0
  }

  function StackLeft(code: seq<Compiled>, fs: seq<CallFrame>): int {
    if fs == [] then 0 else StackLeft(code, fs[..|fs| - 1]) + FrameLeft(code, fs[|fs| - 1])
  }

  /** What a frame can still be charged; `returning` says the return of its call is still to come. */
  ghost function FrameRest<D>(g: Guest<D>, code: seq<Compiled>, f: CallFrame, returning: bool): int
    requires FrameOk(g, code, f)
  {
    var c := code[f.func];
    if Sourced(g, code, f) then Rest(c, f.at.pc + 1) + (if returning then 1 else 0) else Rest(c, f.at.pc)
  }

  ghost function ParkedRest<D>(g: Guest<D>, code: seq<Compiled>, fs: seq<CallFrame>): int {
    if fs == [] then 0
    else
      var f := fs[|fs| - 1];
      ParkedRest(g, code, fs[..|fs| - 1]) + if FrameOk(g, code, f) then FrameRest(g, code, f, true) else 0
  }

  /** What all activations on the stack can still be charged if they only move forward. */
  ghost function StackRest<D>(g: Guest<D>, code: seq<Compiled>, m: Machine<D>): int
    requires m.HasTop() && FrameOk(g, code, m.Top())
  {
    ParkedRest(g, code, m.frames[..|m.frames| - 1]) + FrameRest(g, code, m.Top(), m.mode.Hosting?)
  }

  // ---- The invariant of a slice ----

  /** The check yields only at or past the bound; once past the check the counter variable is not
      positive until the checked operator has run. */
  ghost predicate Gate<D>(g: Guest<D>, code: seq<Compiled>, f: CallFrame, mem: Counter)
    requires FrameOk(g, code, f)
  {
    var c, pc := code[f.func], f.at.pc;
    ChecksAt(c, pc) ==>
      && (f.k == SourceAt(c, pc) ==> f.count <= 0)
      && (f.k == SourceAt(c, pc) - 1 ==> mem.adj <= 0)
      && (CheckAt(c, pc) + 2 <= f.k < SourceAt(c, pc) - 1 ==> f.count >= 0)
  }

  /** The exact value the counter stands for, when the bound is the absolute count `limit`. */
  ghost function Level<D>(g: Guest<D>, code: seq<Compiled>, m: Machine<D>, r: Run<D>, limit: int): int
    requires m.HasTop() && FrameOk(g, code, m.Top())
  {
    r.count - limit - if m.mode.Hosting? then 0 else OwedAt(code[m.Top().func], m.Top().at.pc, m.Top().k)
  }

  predicate Live<D>(m: Machine<D>) { m.mode.Going? || m.mode.Hosting? }

  /** `limit` is the absolute count at which the bound expires. */
  ghost predicate InSlice<D>(g: Guest<D>, code: seq<Compiled>, m: Machine<D>, r: Run<D>, limit: int) {
    && Live(m) && Rel(g, code, m, r)
    && |m.frames| <= g.maxDepth
    && Wrap(m.mem.bound) == Wrap(limit)
    && -MAX - 1 <= Level(g, code, m, r, limit)
    && r.count - limit + StackRest(g, code, m) <= MAX
    && (m.mode.Going? ==> Gate(g, code, m.Top(), m.mem))
  }

  /** Bounds on the code of every function. */
  ghost predicate Fits(code: seq<Compiled>, length: nat, cost: nat) {
    forall f | 0 <= f < |code| :: Left(code[f], 0) <= length && BodyCost(code[f]) <= cost
  }

  /** Within range the counter is exact, not just congruent. */
  lemma ExactValue(v: i64, bound: i64, limit: int, owed: int, count: int)
    requires Wrap(v + bound + owed) == Wrap(count) && Wrap(bound) == Wrap(limit)
    requires -MAX - 1 <= count - limit - owed <= MAX
    ensures v == count - limit - owed
  {
  }

  lemma {:induction false} ParkedRestIsNat<D>(g: Guest<D>, code: seq<Compiled>, fs: seq<CallFrame>)
    ensures ParkedRest(g, code, fs) >= 0
  {
    if fs != [] {
      ParkedRestIsNat(g, code, fs[..|fs| - 1]);
    }
  }

  /** What has been paid in advance is part of what the stack can still be charged. */
  lemma LevelBelowRest<D>(g: Guest<D>, code: seq<Compiled>, m: Machine<D>, r: Run<D>, limit: int)
    requires m.HasTop() && FrameOk(g, code, m.Top())
    requires m.mode.Hosting? ==> Waiting(g, code, m.Top())
    ensures Level(g, code, m, r, limit) <= r.count - limit + StackRest(g, code, m)
  {
    ParkedRestIsNat(g, code, m.frames[..|m.frames| - 1]);
    var f := m.Top();
    RestShrinks(code[f.func], f.at.pc, f.at.pc + 1);
  }

  lemma LevelIsExact<D>(g: Guest<D>, code: seq<Compiled>, m: Machine<D>, r: Run<D>, limit: int)
    requires InSlice(g, code, m, r, limit)
    ensures var f, l := m.Top(), Level(g, code, m, r, limit);
            && l <= MAX
            && (m.mode.Hosting? ==> m.mem.adj == l)
            && (m.mode.Going? ==>
                var sync := SyncAt(code[f.func], f.at.pc, f.k);
                && (!sync.InMemory? ==> f.count == l)
                && (!sync.InVariable? ==> m.mem.adj == l))
  {
    InSliceIsLive(g, code, m, r, limit);
    LevelBelowRest(g, code, m, r, limit);
    if m.mode.Hosting? {
      ExactInMemory(g, code, m, r, limit);
    } else {
      ExactInGuest(g, code, m, r, limit);
    }
    hide Rel, FrameOk, SyncAt;
  }

  lemma ExactInMemory<D>(g: Guest<D>, code: seq<Compiled>, m: Machine<D>, r: Run<D>, limit: int)
    requires InSlice(g, code, m, r, limit) && m.mode.Hosting?
    requires Level(g, code, m, r, limit) <= MAX
    ensures m.mem.adj == Level(g, code, m, r, limit)
  {
    hide Gate, StackRest, FrameOk, Matches;
    ExactValue(m.mem.adj, m.mem.bound, limit, 0, r.count);
  }

  lemma ExactInGuest<D>(g: Guest<D>, code: seq<Compiled>, m: Machine<D>, r: Run<D>, limit: int)
    requires InSlice(g, code, m, r, limit) && m.mode.Going? && m.HasTop() && FrameOk(g, code, m.Top())
    requires Level(g, code, m, r, limit) <= MAX
    ensures var f := m.Top();
            var sync, l := SyncAt(code[f.func], f.at.pc, f.k), Level(g, code, m, r, limit);
            && (!sync.InMemory? ==> f.count == l)
            && (!sync.InVariable? ==> m.mem.adj == l)
  {
    hide Gate, StackRest, Matches, OwedAt, SyncAt, Wrap;
    var f := m.Top();
    var sync, owed := SyncAt(code[f.func], f.at.pc, f.k), OwedAt(code[f.func], f.at.pc, f.k);
    if !sync.InMemory? {
      ExactValue(f.count, m.mem.bound, limit, owed, r.count);
    }
    if !sync.InVariable? {
      ExactValue(m.mem.adj, m.mem.bound, limit, owed, r.count);
    }
  }

  // ---- What one step does to what is left ----

  function Pending<D>(code: seq<Compiled>, m: Machine<D>): int {
    StackLeft(code, m.frames) + if m.mode.Hosting? then 1 else 0
  }

  /** The step only moved forward: less is left, and the count rose by no more than the charges it used up. */
  ghost predicate MovedOn<D>(g: Guest<D>, code: seq<Compiled>, m: Machine<D>, r: Run<D>, m': Machine<D>, r': Run<D>)
    requires m.HasTop() && FrameOk(g, code, m.Top()) && m'.HasTop() && FrameOk(g, code, m'.Top())
  {
    && Pending(code, m') < Pending(code, m)
    && r.count <= r'.count
    && r'.count + StackRest(g, code, m') <= r.count + StackRest(g, code, m)
  }

  /** The step passed a check to start a call or another round of a loop, within the bound. */
  ghost predicate PassedCheck<D>(
      code: seq<Compiled>, m: Machine<D>, r: Run<D>, m': Machine<D>, r': Run<D>, limit: int, length: nat)
  {
    && r.count < r'.count <= limit
    && Pending(code, m') <= Pending(code, m) + length
  }

  /** Either the slice is over, or it goes on with less left to do. */
  ghost predicate Progress<D>(
      g: Guest<D>, code: seq<Compiled>, m: Machine<D>, r: Run<D>, m': Machine<D>, r': Run<D>, limit: int, length: nat)
    requires m.HasTop() && FrameOk(g, code, m.Top())
  {
    Live(m') ==>
      && InSlice(g, code, m', r', limit)
      && (MovedOn(g, code, m, r, m', r') || PassedCheck(code, m, r, m', r', limit, length))
  }

  lemma SetTopLeft<D>(code: seq<Compiled>, m: Machine<D>, f: CallFrame)
    requires m.HasTop()
    ensures StackLeft(code, m.SetTop(f).frames)
         == StackLeft(code, m.frames) - FrameLeft(code, m.Top()) + FrameLeft(code, f)
  {
  }

  /** A gated position is entered only by a reload or by a check that was passed. */
  lemma ItemKeepsGate<D>(g: Guest<D>, code: seq<Compiled>, m: Machine<D>, item: Item)
    requires m.HasTop() && FrameOk(g, code, m.Top()) && Gate(g, code, m.Top(), m.mem)
    requires Upcomes(g, code, m.Top(), item) && !item.Source? && !item.Yield?
    requires Steppable(g, Activation(m.Top().func, m.Top().at))
    ensures var m' := Perform(g, m, item);
            && m'.HasTop() && m'.Top().func == m.Top().func && m'.Top().at == m.Top().at
            && (FrameOk(g, code, m'.Top()) ==> Gate(g, code, m'.Top(), m'.mem))
  {
    var f := m.Top();
    if f.at.pc < |code[f.func].ops| {
      Shape(code[f.func], f.at.pc);
    }
  }

  /** A step that only moves the top frame forward. */
  lemma TopMoves<D>(g: Guest<D>, code: seq<Compiled>, m: Machine<D>, r: Run<D>, m': Machine<D>, r': Run<D>, limit: int)
    requires InSlice(g, code, m, r, limit) && m.mode.Going?
    requires m'.mode.Going? && Rel(g, code, m', r') && m'.frames == m.SetTop(m'.Top()).frames
    requires m'.mem.bound == m.mem.bound && Gate(g, code, m'.Top(), m'.mem)
    requires FrameLeft(code, m'.Top()) < FrameLeft(code, m.Top())
    requires r.count <= r'.count
    requires r'.count + FrameRest(g, code, m'.Top(), false) <= r.count + FrameRest(g, code, m.Top(), false)
    requires Level(g, code, m, r, limit) <= Level(g, code, m', r', limit)
    ensures InSlice(g, code, m', r', limit) && MovedOn(g, code, m, r, m', r')
  {
    SetTopLeft(code, m, m'.Top());
    assert m'.frames[..|m'.frames| - 1] == m.frames[..|m.frames| - 1];
  }

  /** An item other than the operator's own code takes the top frame forward and charges nothing. */
  lemma ItemForward<D>(g: Guest<D>, code: seq<Compiled>, m: Machine<D>, item: Item)
    requires m.HasTop() && m.mode.Going? && FrameOk(g, code, m.Top())
    requires Upcomes(g, code, m.Top(), item) && !item.Source? && !item.Yield?
    requires Steppable(g, Activation(m.Top().func, m.Top().at))
    requires var m' := Perform(g, m, item); m'.HasTop() && FrameOk(g, code, m'.Top())
    ensures var m' := Perform(g, m, item);
            var f, f' := m.Top(), m'.Top();
            && m'.mode.Going? && m'.frames == m.SetTop(f').frames && m'.mem.bound == m.mem.bound
            && FrameLeft(code, f') < FrameLeft(code, f)
            && FrameRest(g, code, f', false) == FrameRest(g, code, f, false)
            && f'.func == f.func && f'.at == f.at
            && OwedAt(code[f.func], f.at.pc, f'.k) <= OwedAt(code[f.func], f.at.pc, f.k)
  {
    Upcoming(g, code, m.Top());
    hide Rest, Left;
  }

  lemma ItemMoves<D>(g: Guest<D>, code: seq<Compiled>, m: Machine<D>, r: Run<D>, limit: int, item: Item, length: nat)
    requires InSlice(g, code, m, r, limit) && m.mode.Going?
    requires Upcomes(g, code, m.Top(), item) && !item.Source? && !item.Yield?
    requires Steppable(g, Activation(m.Top().func, m.Top().at))
    ensures Progress(g, code, m, r, Perform(g, m, item), r, limit, length)
  {
    var m' := Perform(g, m, item);
    ItemSimulates(g, code, m, r, item);
    InSliceIsLive(g, code, m, r, limit);
    StillOk(g, code, m, r, item);
    ItemForward(g, code, m, item);
    ItemGated(g, code, m, r, limit, item);
    hide Rel, FrameOk, Upcomes, Perform, Gate, FrameLeft, FrameRest, OwedAt, Balanced, PassedCheck;
    TopMoves(g, code, m, r, m', r, limit);
  }

  lemma StillOk<D>(g: Guest<D>, code: seq<Compiled>, m: Machine<D>, r: Run<D>, item: Item)
    requires Rel(g, code, m, r) && m.mode.Going? && Upcomes(g, code, m.Top(), item) && !item.Source? && !item.Yield?
    requires Steppable(g, Activation(m.Top().func, m.Top().at))
    requires Rel(g, code, Perform(g, m, item), r)
    ensures var m' := Perform(g, m, item); m'.HasTop() && FrameOk(g, code, m'.Top())
  {
    hide Balanced, FrameOk;
  }

  lemma ItemGated<D>(g: Guest<D>, code: seq<Compiled>, m: Machine<D>, r: Run<D>, limit: int, item: Item)
    requires InSlice(g, code, m, r, limit) && m.mode.Going?
    requires Upcomes(g, code, m.Top(), item) && !item.Source? && !item.Yield?
    requires Steppable(g, Activation(m.Top().func, m.Top().at))
    ensures var m' := Perform(g, m, item);
            m'.HasTop() && (FrameOk(g, code, m'.Top()) ==> Gate(g, code, m'.Top(), m'.mem))
  {
    hide Gate, StackRest, Level, Upcomes;
    ItemKeepsGate(g, code, m, item);
  }

  lemma FallThroughMoves<D>(g: Guest<D>, code: seq<Compiled>, m: Machine<D>, r: Run<D>, limit: int, length: nat)
    requires InSlice(g, code, m, r, limit) && m.mode.Going? && Wired(g, code, m.Top())
    requires m.Top().k >= |code[m.Top().func].code[m.Top().at.pc]|
    ensures Progress(g, code, m, r, GoOn(g, code, m), r, limit, length)
    ensures GoOn(g, code, m).retired == m.retired
  {
    InSliceIsLive(g, code, m, r, limit);
    FallThroughSimulates(g, code, m, r);
    FallThroughForward(g, code, m);
    hide Rel, FrameOk, GoOn, Gate, FrameLeft, FrameRest, OwedAt, Balanced, PassedCheck;
    TopMoves(g, code, m, r, GoOn(g, code, m), r, limit);
  }

  lemma FallThroughForward<D>(g: Guest<D>, code: seq<Compiled>, m: Machine<D>)
    requires m.HasTop() && m.mode.Going? && FrameOk(g, code, m.Top()) && Wired(g, code, m.Top())
    requires m.Top().k >= |code[m.Top().func].code[m.Top().at.pc]|
    ensures var m' := GoOn(g, code, m);
            var f, f' := m.Top(), m.Top().(at := m.Top().at.(pc := m.Top().at.pc + 1), k := 0);
            && m' == m.SetTop(f') && m'.HasTop() && m'.Top() == f'
            && FrameOk(g, code, f') && Gate(g, code, f', m'.mem)
            && FrameLeft(code, f') < FrameLeft(code, f)
            && FrameRest(g, code, f', false) == FrameRest(g, code, f, false)
            && OwedAt(code[f.func], f'.at.pc, f'.k) == OwedAt(code[f.func], f.at.pc, f.k)
  {
    FallThroughOwed(g, code, m.Top());
  }

  lemma FallThroughOwed<D>(g: Guest<D>, code: seq<Compiled>, f: CallFrame)
    requires FrameOk(g, code, f) && f.k >= |code[f.func].code[f.at.pc]|
    ensures var f' := f.(at := f.at.(pc := f.at.pc + 1), k := 0);
            && FrameOk(g, code, f')
            && OwedAt(code[f.func], f.at.pc, f.k) == OwedAt(code[f.func], f.at.pc + 1, 0)
            && Sourced(g, code, f) && !Sourced(g, code, f')
  {
    Upcoming(g, code, f);
    Shape(code[f.func], f.at.pc);
    AfterCall(code[f.func], f.at);
  }

  // ---- The operator's own code ----

  /** Only a checked operator can lead backwards. */
  lemma BackwardsIsChecked(c: Compiled, at: Place, choice: nat)
    requires c.Valid() && WellPlaced(c, at) && at.pc < |c.ops| && Depths(c, at.pc)
    requires PlaceIn(c.ops, at.labels) && IsLocal(c.ops[at.pc]) && DepthsOk(c.ops[at.pc], |at.labels|)
    ensures Transfer(c.ops, at, choice).pc > at.pc || (ChecksAt(c, at.pc) && OpCost(c.ops[at.pc]) > 0)
  {
    var op := c.ops[at.pc];
    match op
    case Br(d) => EmittedCode.BackwardsIsLoop(c, at.pc, d);
    case BrIf(d) => EmittedCode.BackwardsIsLoop(c, at.pc, d);
    case Else => AlwaysScopeOk(c, at.pc, |at.labels| - 1);
    case _ =>
  }

  function Times(a: nat, b: nat): nat { a * b }

  lemma TimesGrows(a: nat, b: nat, k: nat)
    requires a <= b
    ensures Times(a, k) <= Times(b, k)
  {
  }

  lemma TimesSteps(a: nat, k: nat)
    ensures Times(0, k) == 0
    ensures Times(a + 1, k) == Times(a, k) + k
  {
  }

  lemma {:induction false} ParkedRestBelow<D>(
      g: Guest<D>, code: seq<Compiled>, fs: seq<CallFrame>, length: nat, cost: nat)
    requires Fits(code, length, cost)
    requires forall i | 0 <= i < |fs| :: Parked(g, code, fs[i])
    ensures ParkedRest(g, code, fs) <= Times(|fs|, cost)
  {
    if fs == [] {
      TimesSteps(0, cost);
    } else {
      hide Times;
      var n := |fs| - 1;
      assert Parked(g, code, fs[n]);
      FrameRestBelow(g, code, fs[n], true, length, cost);
      ParkedRestBelow(g, code, fs[..n], length, cost);
      TimesSteps(n, cost);
    }
  }

  lemma FrameRestBelow<D>(g: Guest<D>, code: seq<Compiled>, f: CallFrame, returning: bool, length: nat, cost: nat)
    requires Fits(code, length, cost) && FrameOk(g, code, f) && (returning ==> Waiting(g, code, f))
    ensures FrameRest(g, code, f, returning) <= BodyCost(code[f.func]) <= cost
  {
    var c, pc := code[f.func], f.at.pc;
    RestShrinks(c, 0, pc);
    RestShrinks(c, pc, pc + 1);
  }

  lemma StackRestBelow<D>(g: Guest<D>, code: seq<Compiled>, m: Machine<D>, r: Run<D>, length: nat, cost: nat)
    requires Fits(code, length, cost) && Matches(g, code, m, r) && m.HasTop()
    requires FrameOk(g, code, m.Top()) && (m.mode.Hosting? ==> Waiting(g, code, m.Top()))
    requires |m.frames| <= g.maxDepth && Times(g.maxDepth, cost) <= MAX
    ensures StackRest(g, code, m) <= MAX
  {
    hide Times;
    var n := |m.frames| - 1;
    var fs := m.frames[..n];
    forall i | 0 <= i < |fs|
      ensures Parked(g, code, fs[i])
    {
      assert fs[i] == m.frames[i];
    }
    ParkedRestBelow(g, code, fs, length, cost);
    FrameRestBelow(g, code, m.Top(), m.mode.Hosting?, length, cost);
    TimesGrows(n + 1, g.maxDepth, cost);
    TimesSteps(n, cost);
  }

  lemma StandsAtSource<D>(g: Guest<D>, code: seq<Compiled>, f: CallFrame)
    requires FrameOk(g, code, f) && f.k == SourceAt(code[f.func], f.at.pc)
    ensures var c, pc := code[f.func], f.at.pc;
            && Upcomes(g, code, f, Source)
            && OwedAt(c, pc, f.k) == Owing(c, pc) - FlushAt(c, pc)
            && !SyncAt(c, pc, f.k).InMemory?
  {
    Upcoming(g, code, f);
    if f.at.pc < |code[f.func].ops| {
      Shape(code[f.func], f.at.pc);
    }
    PaidAtSource(g, code, f);
  }

  lemma LocalKeepsLevel<D>(g: Guest<D>, code: seq<Compiled>, m: Machine<D>, r: Run<D>, limit: int, op: Op, choice: nat)
    requires AtOp(g, code, m, r, op) && IsLocal(op)
    ensures var m', r' := Effect(g, m, op, choice), Apply(g, r, op, choice);
            && m'.mode.Going? && Rel(g, code, m', r') && m'.mem == m.mem && m'.frames == m.SetTop(m'.Top()).frames
            && m'.Top().func == m.Top().func && m'.Top().k == 0 && !Sourced(g, code, m'.Top())
            && m'.Top().at == Transfer(code[m.Top().func].ops, m.Top().at, choice)
            && r'.count == r.count + OpCost(op)
            && Gate(g, code, m'.Top(), m'.mem)
            && Level(g, code, m', r', limit) == Level(g, code, m, r, limit)
  {
    var f := m.Top();
    LocalStepSimulates(g, code, m, r, op, choice);
    OwedAfterTransfer(code[f.func], f.at, choice);
    StandsAtSource(g, code, f);
  }

  lemma LocalMoves<D>(
      g: Guest<D>, code: seq<Compiled>, m: Machine<D>, r: Run<D>, limit: int, op: Op, choice: nat,
      length: nat, cost: nat)
    requires InSlice(g, code, m, r, limit) && AtOp(g, code, m, r, op) && IsLocal(op)
    requires Fits(code, length, cost) && Times(g.maxDepth, cost) <= MAX
    ensures Progress(g, code, m, r, Effect(g, m, op, choice), Apply(g, r, op, choice), limit, length)
  {
    var f := m.Top();
    var c := code[f.func];
    var m', r' := Effect(g, m, op, choice), Apply(g, r, op, choice);
    var to := m'.Top().at;
    LocalKeepsLevel(g, code, m, r, limit, op, choice);
    BackwardsIsChecked(c, f.at, choice);
    if to.pc > f.at.pc {
      LeftShrinks(c, f.at.pc, to.pc);
      RestShrinks(c, f.at.pc, to.pc);
      TopMoves(g, code, m, r, m', r', limit);
    } else {
      PassedMeansBelow(g, code, m, r, limit, op);
      LoopsBack(g, code, m, r, m', r', limit, length, cost);
    }
  }

  /** A checked operator only runs while its price still fits below the bound. */
  lemma PassedMeansBelow<D>(g: Guest<D>, code: seq<Compiled>, m: Machine<D>, r: Run<D>, limit: int, op: Op)
    requires InSlice(g, code, m, r, limit) && AtOp(g, code, m, r, op)
    requires ChecksAt(code[m.Top().func], m.Top().at.pc)
    ensures r.count + OpCost(op) <= limit
    ensures Level(g, code, m, r, limit) == r.count + OpCost(op) - limit
  {
    StandsAtSource(g, code, m.Top());
    LevelIsExact(g, code, m, r, limit);
  }

  /** Any state at or below the bound is in the slice: its activations cannot overrun an `i64`. */
  lemma BelowLimit<D>(g: Guest<D>, code: seq<Compiled>, m: Machine<D>, r: Run<D>, limit: int, length: nat, cost: nat)
    requires Fits(code, length, cost) && Times(g.maxDepth, cost) <= MAX
    requires Live(m) && Rel(g, code, m, r) && |m.frames| <= g.maxDepth
    requires Wrap(m.mem.bound) == Wrap(limit) && r.count <= limit
    requires -MAX - 1 <= Level(g, code, m, r, limit)
    requires m.mode.Going? ==> Gate(g, code, m.Top(), m.mem)
    ensures InSlice(g, code, m, r, limit)
  {
    StackRestBelow(g, code, m, r, length, cost);
  }

  lemma LoopsBack<D>(
      g: Guest<D>, code: seq<Compiled>, m: Machine<D>, r: Run<D>, m': Machine<D>, r': Run<D>, limit: int,
      length: nat, cost: nat)
    requires InSlice(g, code, m, r, limit) && m.mode.Going?
    requires Fits(code, length, cost) && Times(g.maxDepth, cost) <= MAX
    requires m'.mode.Going? && Rel(g, code, m', r') && m'.frames == m.SetTop(m'.Top()).frames && m'.Top().k == 0
    requires m'.mem.bound == m.mem.bound && Gate(g, code, m'.Top(), m'.mem)
    requires r.count < r'.count <= limit
    requires m.Top().k <= |code[m.Top().func].code[m.Top().at.pc]|
    requires Level(g, code, m, r, limit) <= Level(g, code, m', r', limit)
    ensures InSlice(g, code, m', r', limit) && PassedCheck(code, m, r, m', r', limit, length)
  {
    SetTopLeft(code, m, m'.Top());
    LeftShrinks(code[m'.Top().func], 0, m'.Top().at.pc);
    BelowLimit(g, code, m', r', limit, length, cost);
  }

  /** The frame a call leaves behind, and the count it hands over. */
  lemma CallPays<D>(g: Guest<D>, code: seq<Compiled>, m: Machine<D>, r: Run<D>, limit: int, op: Op)
    requires InSlice(g, code, m, r, limit) && AtOp(g, code, m, r, op) && op.Calls()
    ensures -MAX - 1 <= r.count + OpCost(op) - limit <= 0
    ensures var t := m.Top().(k := m.Top().k + 1);
            StackLeft(code, m.SetTop(t).frames) == StackLeft(code, m.frames) - 1
  {
    PassedMeansBelow(g, code, m, r, limit, op);
    SetTopLeft(code, m, m.Top().(k := m.Top().k + 1));
  }

  lemma CallMoves<D>(
      g: Guest<D>, code: seq<Compiled>, m: Machine<D>, r: Run<D>, limit: int, op: Op, choice: nat,
      length: nat, cost: nat)
    requires Built(g, code)
    requires InSlice(g, code, m, r, limit) && AtOp(g, code, m, r, op) && op.Calls()
    requires Fits(code, length, cost) && Times(g.maxDepth, cost) <= MAX && length > 0
    ensures Progress(g, code, m, r, Effect(g, m, op, choice), Apply(g, r, op, choice), limit, length)
  {
    var m', r' := Effect(g, m, op, choice), Apply(g, r, op, choice);
    CallSimulates(g, code, m, r, op, choice);
    CallPays(g, code, m, r, limit, op);
    CallLands(g, code, m, r, op, choice, length, cost);
    hide Effect, Apply, FrameOk, Balanced, Gate, Level, StackRest, Pending, Fits, Times;
    if Live(m') {
      assert Landed(g, code, m, r, m', r', OpCost(op), length);
      LandedInSlice(g, code, m, r, m', r', limit, OpCost(op), length, cost);
    }
  }

  /** A call just made: nothing is owed, and at most one new activation's code is left to run. */
  ghost predicate Landed<D>(
      g: Guest<D>, code: seq<Compiled>, m: Machine<D>, r: Run<D>, m': Machine<D>, r': Run<D>, price: nat, length: nat)
  {
    && |m'.frames| <= g.maxDepth && m'.mem == m.mem && r'.count == r.count + price
    && m'.HasTop()
    && Pending(code, m') <= Pending(code, m) + length
    && (m'.mode.Going? ==>
        && FrameOk(g, code, m'.Top()) && Gate(g, code, m'.Top(), m'.mem)
        && OwedAt(code[m'.Top().func], m'.Top().at.pc, m'.Top().k) == 0)
  }

  lemma LandedInSlice<D>(
      g: Guest<D>, code: seq<Compiled>, m: Machine<D>, r: Run<D>, m': Machine<D>, r': Run<D>, limit: int,
      price: nat, length: nat, cost: nat)
    requires Landed(g, code, m, r, m', r', price, length) && Live(m') && Rel(g, code, m', r')
    requires Fits(code, length, cost) && Times(g.maxDepth, cost) <= MAX
    requires price > 0 && -MAX - 1 <= r'.count - limit <= 0
    requires Wrap(m.mem.bound) == Wrap(limit)
    ensures InSlice(g, code, m', r', limit) && PassedCheck(code, m, r, m', r', limit, length)
  {
    BelowLimit(g, code, m', r', limit, length, cost);
  }

  lemma CallLands<D>(
      g: Guest<D>, code: seq<Compiled>, m: Machine<D>, r: Run<D>, op: Op, choice: nat, length: nat, cost: nat)
    requires Built(g, code) && Fits(code, length, cost) && length > 0
    requires AtOp(g, code, m, r, op) && op.Calls() && |m.frames| <= g.maxDepth
    requires var t := m.Top().(k := m.Top().k + 1); StackLeft(code, m.SetTop(t).frames) == StackLeft(code, m.frames) - 1
    ensures var m', r' := Effect(g, m, op, choice), Apply(g, r, op, choice);
            Live(m') ==> Landed(g, code, m, r, m', r', OpCost(op), length)
  {
    hide Built, Fits, Gate, OwedAt, FrameLeft, Transfer, OpCost;
    var t := m.Top().(k := m.Top().k + 1);
    var f := Callee(g, op, choice);
    var m' := Effect(g, m, op, choice);
    assert m' == Invoke(g, m.SetTop(t), f);
    hide FrameOk;
    if m'.mode.Going? {
      EntryLands(g, code, f, m'.mem, length, cost);
      assert m'.frames[..|m'.frames| - 1] == m.SetTop(t).frames;
    }
  }

  lemma EntryLands<D>(g: Guest<D>, code: seq<Compiled>, f: nat, mem: Counter, length: nat, cost: nat)
    requires Built(g, code) && Fits(code, length, cost) && f < |g.funcs| && g.funcs[f].Body?
    ensures var e := CallFrame(f, ENTRY, 0, 0);
            && FrameOk(g, code, e) && Gate(g, code, e, mem)
            && OwedAt(code[f], 0, 0) == 0 && FrameLeft(code, e) <= length
  {
    EntryOk(g, code, f);
  }

  lemma ExitMoves<D>(g: Guest<D>, code: seq<Compiled>, m: Machine<D>, r: Run<D>, limit: int, length: nat)
    requires InSlice(g, code, m, r, limit) && AtSource(g, code, m, r)
    requires var c, pc := code[m.Top().func], m.Top().at.pc; pc == |c.ops| || c.ops[pc].Return?
    ensures Progress(g, code, m, r, Exit(m), Leave(r), limit, length)
  {
    var m', r' := Exit(m), Leave(r);
    ReturnSimulates(g, code, m, r);
    if Live(m') {
      StandsAtSource(g, code, m.Top());
      ExitFrees(g, code, m, r);
      ExitShortens(g, code, m, r);
    }
  }

  /** Returning gives up what was left of the activation and lets the caller be charged for it. */
  lemma ExitFrees<D>(g: Guest<D>, code: seq<Compiled>, m: Machine<D>, r: Run<D>)
    requires AtSource(g, code, m, r) && |m.frames| > 1
    ensures var c := Exit(m).Top();
            && FrameOk(g, code, c) && Gate(g, code, c, m.mem)
            && OwedAt(code[c.func], c.at.pc, c.k) == 1
            && StackRest(g, code, m) >= StackRest(g, code, Exit(m)) + 1
  {
  }

  lemma ExitShortens<D>(g: Guest<D>, code: seq<Compiled>, m: Machine<D>, r: Run<D>)
    requires AtSource(g, code, m, r)
    ensures StackLeft(code, m.frames) > StackLeft(code, Exit(m).frames)
    ensures var c, pc := code[m.Top().func], m.Top().at.pc;
            pc == |c.ops| || c.ops[pc].Return? ==> Owing(c, pc) - FlushAt(c, pc) == 0
  {
    AlwaysMirrors(code[m.Top().func], m.Top().at.pc);
  }

  /** The host returning only turns the return still to come into one that has been counted. */
  lemma HostReturnRest<D>(g: Guest<D>, code: seq<Compiled>, m: Machine<D>, m': Machine<D>)
    requires m.HasTop() && FrameOk(g, code, m.Top()) && Waiting(g, code, m.Top())
    requires m.mode.Hosting? && m'.mode.Going? && m'.frames == m.frames
    ensures StackRest(g, code, m') + 1 == StackRest(g, code, m)
    ensures Pending(code, m') < Pending(code, m)
    ensures Gate(g, code, m'.Top(), m'.mem)
  {
  }

  lemma HostReturnMoves<D>(g: Guest<D>, code: seq<Compiled>, m: Machine<D>, r: Run<D>, limit: int, length: nat)
    requires Built(g, code) && InSlice(g, code, m, r, limit) && m.mode.Hosting?
    ensures Progress(g, code, m, r, Advance(g, code, m, Go), Step(g, r), limit, length)
  {
    var m', r' := Advance(g, code, m, Go), Step(g, r);
    HostReturnSimulates(g, code, m, r);
    hide Rel, Matches, StackRest, Pending, Gate, OwedAt, Built;
    InSliceIsLive(g, code, m, r, limit);
    assert m'.frames == m.frames && m'.mem == m.mem && m'.mode.Going? && r'.count == r.count + 1 by {
      HostStepIs(g, code, m, r);
    }
    WaitingOwesTheReturn(g, code, m.Top());
    HostReturnRest(g, code, m, m');
    assert InSlice(g, code, m', r', limit);
    assert MovedOn(g, code, m, r, m', r');
  }

  lemma HostStepIs<D>(g: Guest<D>, code: seq<Compiled>, m: Machine<D>, r: Run<D>)
    requires Rel(g, code, m, r) && m.mode.Hosting?
    ensures var m', r' := Advance(g, code, m, Go), Step(g, r);
            m'.frames == m.frames && m'.mem == m.mem && m'.mode.Going? && r'.count == r.count + 1
  {
  }

  lemma InSliceIsLive<D>(g: Guest<D>, code: seq<Compiled>, m: Machine<D>, r: Run<D>, limit: int)
    requires InSlice(g, code, m, r, limit)
    ensures Live(m) && Rel(g, code, m, r) && m.HasTop() && FrameOk(g, code, m.Top()) && Matches(g, code, m, r)
    ensures m.mode.Hosting? ==> Waiting(g, code, m.Top())
  {
  }

  // ---- One event of a slice ----

  lemma SameInSlice<D>(g: Guest<D>, code: seq<Compiled>, m: Machine<D>, r: Run<D>, limit: int, retired: nat, data: D)
    requires InSlice(g, code, m, r, limit)
    ensures InSlice(g, code, m.(retired := retired, data := data), r.(data := data), limit)
  {
    hide FrameOk, Waiting, Balanced, Parked, Paired, OwedAt, ParkedRest, FrameRest, Gate, Wrap;
    var m1, r1 := m.(retired := retired, data := data), r.(data := data);
    assert Matches(g, code, m1, r1);
  }

  /** Data and step numbers play no part in what is left to do. */
  lemma ProgressIgnoresData<D>(
      g: Guest<D>, code: seq<Compiled>, m: Machine<D>, r: Run<D>, m': Machine<D>, r': Run<D>, limit: int, length: nat,
      retired: nat, data: D)
    requires m.HasTop() && FrameOk(g, code, m.Top())
    requires Progress(g, code, m.(retired := retired, data := data), r.(data := data), m', r', limit, length)
    ensures Progress(g, code, m, r, m', r', limit, length)
  {
  }

  /** What the machine and the reference do when the operator takes effect, or the activation returns. */
  lemma SourceSteps<D>(g: Guest<D>, code: seq<Compiled>, m: Machine<D>, r: Run<D>)
    requires Built(g, code) && AtSource(g, code, m, r) && m.data == r.data
    requires Steppable(g, Activation(m.Top().func, m.Top().at))
    ensures var ops, pc := code[m.Top().func].ops, m.Top().at.pc;
            if pc == |ops| then
              && Execute(g, m) == Exit(m.(retired := m.retired + 1, data := m.data))
              && Step(g, r) == Leave(r.(data := m.data))
            else match g.eval(ops[pc], m.data)
                 case Trap => !Live(Execute(g, m))
                 case Goes(choice, data) =>
                   && Execute(g, m) == Effect(g, m.(retired := m.retired + 1, data := data), ops[pc], choice)
                   && Step(g, r) == Apply(g, r.(data := data), ops[pc], choice)
  {
    assert code[m.Top().func].ops == g.funcs[m.Top().func].ops;
    hide Effect, Apply, Exit, Leave, Matches, Flushes, Checks;
  }

  lemma SourceMoves<D>(g: Guest<D>, code: seq<Compiled>, m: Machine<D>, r: Run<D>, limit: int, length: nat, cost: nat)
    requires Built(g, code) && InSlice(g, code, m, r, limit) && AtSource(g, code, m, r)
    requires Fits(code, length, cost) && Times(g.maxDepth, cost) <= MAX && length > 0
    ensures Progress(g, code, m, r, Execute(g, m), Step(g, r), limit, length)
  {
    SourceSteps(g, code, m, r);
    hide Execute, Step, Effect, Apply, Exit, Leave, Built, InSlice, Fits;
    InSliceIsLive(g, code, m, r, limit);
    var ops, pc := code[m.Top().func].ops, m.Top().at.pc;
    if pc == |ops| {
      SourceMovesOn(g, code, m, r, limit, length, cost, m.data);
      ProgressIgnoresData(g, code, m, r, Execute(g, m), Step(g, r), limit, length, m.retired + 1, m.data);
    } else {
      match g.eval(ops[pc], m.data)
      case Trap =>
      case Goes(choice, data) =>
        SourceMovesOn(g, code, m, r, limit, length, cost, data);
        var m1, r1 := m.(retired := m.retired + 1, data := data), r.(data := data);
        EffectMoves(g, code, m1, r1, limit, ops[pc], choice, length, cost);
        ProgressIgnoresData(g, code, m, r, Execute(g, m), Step(g, r), limit, length, m.retired + 1, data);
    }
  }

  lemma SourceMovesOn<D>(
      g: Guest<D>, code: seq<Compiled>, m: Machine<D>, r: Run<D>, limit: int, length: nat, cost: nat, data: D)
    requires InSlice(g, code, m, r, limit) && AtSource(g, code, m, r)
    ensures var m1, r1 := m.(retired := m.retired + 1, data := data), r.(data := data);
            && InSlice(g, code, m1, r1, limit) && AtSource(g, code, m1, r1)
            && (m.Top().at.pc == |code[m.Top().func].ops| ==>
                Progress(g, code, m1, r1, Exit(m1), Leave(r1), limit, length))
  {
    SameAtSource(g, code, m, r, m.retired + 1, data);
    SameInSlice(g, code, m, r, limit, m.retired + 1, data);
    if m.Top().at.pc == |code[m.Top().func].ops| {
      ExitMoves(g, code, m.(retired := m.retired + 1, data := data), r.(data := data), limit, length);
    }
  }

  lemma EffectMoves<D>(
      g: Guest<D>, code: seq<Compiled>, m: Machine<D>, r: Run<D>, limit: int, op: Op, choice: nat,
      length: nat, cost: nat)
    requires Built(g, code) && InSlice(g, code, m, r, limit) && AtOp(g, code, m, r, op)
    requires Fits(code, length, cost) && Times(g.maxDepth, cost) <= MAX && length > 0
    ensures Progress(g, code, m, r, Effect(g, m, op, choice), Apply(g, r, op, choice), limit, length)
  {
    if op.Unreachable? {
      assert !Live(Effect(g, m, op, choice));
    } else if op.Return? {
      assert Effect(g, m, op, choice) == Exit(m);
      assert Apply(g, r, op, choice) == Leave(r);
      ExitMoves(g, code, m, r, limit, length);
    } else if op.Calls() {
      CallMoves(g, code, m, r, limit, op, choice, length, cost);
    } else {
      LocalMoves(g, code, m, r, limit, op, choice, length, cost);
    }
  }

  lemma GoIs<D>(g: Guest<D>, code: seq<Compiled>, m: Machine<D>)
    requires m.HasTop() && Wired(g, code, m.Top()) && m.Top().k < |code[m.Top().func].code[m.Top().at.pc]|
    ensures var item, m' := code[m.Top().func].code[m.Top().at.pc][m.Top().k], GoOn(g, code, m);
            if item.Source? then m' == Execute(g, m) && m'.retired == m.retired + 1
            else m' == Perform(g, m, item) && m'.retired == m.retired && (item.Yield? ==> !Live(m'))
  {
    hide Transfer;
  }

  lemma GoMoves<D>(g: Guest<D>, code: seq<Compiled>, m: Machine<D>, r: Run<D>, limit: int, length: nat, cost: nat)
    requires Built(g, code) && InSlice(g, code, m, r, limit) && m.mode.Going?
    requires Fits(code, length, cost) && Times(g.maxDepth, cost) <= MAX && length > 0
    ensures var m' := GoOn(g, code, m);
            Progress(g, code, m, r, m', if m'.retired == m.retired then r else Step(g, r), limit, length)
  {
    InSliceIsLive(g, code, m, r, limit);
    var f := m.Top();
    CanStep(g, code, f);
    hide FrameOk, InSlice, Matches, Built, Fits, Step, GoOn, Execute, Perform, MovedOn, PassedCheck;
    var items := code[f.func].code[f.at.pc];
    if f.k >= |items| {
      FallThroughMoves(g, code, m, r, limit, length);
    } else {
      GoIs(g, code, m);
      if items[f.k].Source? {
        ReachesSource(g, code, m, r);
        SourceMoves(g, code, m, r, limit, length, cost);
      } else if !items[f.k].Yield? {
        ItemMoves(g, code, m, r, limit, items[f.k], length);
      }
    }
  }

  lemma SliceAdvances<D>(g: Guest<D>, code: seq<Compiled>, m: Machine<D>, r: Run<D>, limit: int, length: nat, cost: nat)
    requires Built(g, code) && InSlice(g, code, m, r, limit)
    requires Fits(code, length, cost) && Times(g.maxDepth, cost) <= MAX && length > 0
    ensures var m' := Advance(g, code, m, Go);
            Progress(g, code, m, r, m', if m'.retired == m.retired then r else Step(g, r), limit, length)
  {
    if m.mode.Hosting? {
      HostReturnMoves(g, code, m, r, limit, length);
    } else {
      GoMoves(g, code, m, r, limit, length, cost);
    }
  }
}
