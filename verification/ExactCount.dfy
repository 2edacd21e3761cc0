/** The compiled program does what the source does and counts exactly what the reference
    interpreter counts, whatever bounds the host sets along the way. */
module ExactCount {
  import opened Int64
  import opened Wasm
  import opened Instrumentation
  import opened ControlStack
  import opened CodeShape
  import opened Target

  // ---- Where the count is kept at each item ----

  datatype Sync = InVariable | InMemory | InBoth

  /** Which of the counter variable and `instruction_count_adj` is up to date before item `k`. */
  function SyncAt(c: Compiled, pc: nat, k: nat): Sync
    requires pc < |c.code| && k <= |c.code[pc]|
  {
    if k == 0 then if pc == 0 then InMemory else InVariable
    else match c.code[pc][k - 1]
         case Load | Save | SkipIfNegative(_) => InBoth
         case AddCount(_) => InVariable
         case Yield | Source => InMemory
  }

  /** What the reference has counted before item `k` and the counter has not; negative once the
      operator has been paid for in advance. */
  function OwedAt(c: Compiled, pc: nat, k: nat): int
    requires c.Valid() && pc <= |c.ops| && Depths(c, pc)
  {
    Owing(c, pc)
    + (if k > SourceAt(c, pc) then PriceAt(c, pc) + (if CallsAt(c, pc) then 1 else 0) else 0)
    - (if k > AddAt(pc) then FlushAt(c, pc) else 0)
  }

  // ---- The simulation relation ----

  ghost predicate FrameOk<D>(g: Guest<D>, code: seq<Compiled>, f: CallFrame) {
    && f.func < |code| == |g.funcs| && g.funcs[f.func].Body?
    && code[f.func].ops == g.funcs[f.func].ops && code[f.func].Valid()
    && var c := code[f.func];
    && WellPlaced(c, f.at)
    && PlaceIn(c.ops, f.at.labels)
    && Depths(c, f.at.pc)
    && f.k <= SourceAt(c, f.at.pc) + (if CallsAt(c, f.at.pc) then 2 else 0)
    && f.k <= |c.code[f.at.pc]|
  }

  /** The operator at this frame has taken effect; only a call leaves its frame in this state. */
  ghost predicate Sourced<D>(g: Guest<D>, code: seq<Compiled>, f: CallFrame)
    requires FrameOk(g, code, f)
  {
    f.k > SourceAt(code[f.func], f.at.pc)
  }

  ghost function Abs<D>(g: Guest<D>, code: seq<Compiled>, f: CallFrame): Activation
    requires FrameOk(g, code, f)
  {
    Activation(f.func, if Sourced(g, code, f) then f.at.(pc := f.at.pc + 1) else f.at)
  }

  /** A frame waiting for a call to come back: its next item reloads the counter. */
  ghost predicate Waiting<D>(g: Guest<D>, code: seq<Compiled>, f: CallFrame)
    requires FrameOk(g, code, f)
  {
    CallsAt(code[f.func], f.at.pc) && f.k == SourceAt(code[f.func], f.at.pc) + 1
  }

  ghost predicate Paired<D>(g: Guest<D>, code: seq<Compiled>, f: CallFrame, a: Activation) {
    FrameOk(g, code, f) && a == Abs(g, code, f)
  }

  ghost predicate Parked<D>(g: Guest<D>, code: seq<Compiled>, f: CallFrame) {
    FrameOk(g, code, f) && Waiting(g, code, f)
  }

  ghost predicate Matches<D>(g: Guest<D>, code: seq<Compiled>, m: Machine<D>, r: Run<D>) {
    && |m.frames| == |r.acts|
    && (forall i | 0 <= i < |m.frames| :: Paired(g, code, m.frames[i], r.acts[i]))
    && (forall i | 0 <= i < |m.frames| - 1 :: Parked(g, code, m.frames[i]))
    && m.data == r.data
  }

  ghost predicate Balanced<D>(g: Guest<D>, code: seq<Compiled>, f: CallFrame, mem: Counter, count: nat)
    requires FrameOk(g, code, f)
  {
    var c := code[f.func];
    var sync, owed := SyncAt(c, f.at.pc, f.k), OwedAt(c, f.at.pc, f.k);
    && (!sync.InMemory? ==> Wrap(f.count + mem.bound + owed) == Wrap(count))
    && (!sync.InVariable? ==> Wrap(mem.adj + mem.bound + owed) == Wrap(count))
    && (sync.InBoth? ==> mem.adj == f.count)
  }

  ghost predicate Rel<D>(g: Guest<D>, code: seq<Compiled>, m: Machine<D>, r: Run<D>) {
    match m.mode
    case Faulted => r.status.Trapped?
    case Finished => r.status.Done? && m.data == r.data && Wrap(m.mem.adj + m.mem.bound) == Wrap(r.count)
    case Hosting(f) =>
      && r.status == InHost(f) && Matches(g, code, m, r) && m.HasTop() && Waiting(g, code, m.Top())
      && Wrap(m.mem.adj + m.mem.bound) == Wrap(r.count)
    case Going =>
      && r.status.Running? && Matches(g, code, m, r) && m.HasTop()
      && Balanced(g, code, m.Top(), m.mem, r.count)
    case BoundExpired =>
      && r.status.Running? && Matches(g, code, m, r) && m.HasTop()
      && Balanced(g, code, m.Top(), m.mem, r.count)
      && var f := m.Top(); f.k > 0 && code[f.func].code[f.at.pc][f.k - 1] == Yield
  }

  // ---- Items other than the operator's own code ----

  lemma SetTopMatches<D>(g: Guest<D>, code: seq<Compiled>, m: Machine<D>, r: Run<D>, f: CallFrame)
    requires Matches(g, code, m, r) && m.HasTop()
    requires FrameOk(g, code, f) && Abs(g, code, f) == Abs(g, code, m.Top())
    ensures Matches(g, code, m.SetTop(f), r)
  {
  }

  /** The item a frame is about to perform, and what surrounds it. */
  lemma Upcoming<D>(g: Guest<D>, code: seq<Compiled>, f: CallFrame)
    requires FrameOk(g, code, f)
    ensures var c, pc, k := code[f.func], f.at.pc, f.k;
            var items, s := c.code[pc], SourceAt(c, pc);
            && |items| == s + (if CallsAt(c, pc) then 2 else 1)
            && (k < |items| ==>
                match items[k]
                case AddCount(n) => k == AddAt(pc) < s && n == FlushAt(c, pc) && !SyncAt(c, pc, k).InMemory?
                case Save => k < s && !SyncAt(c, pc, k).InMemory? && (k <= AddAt(pc) ==> FlushAt(c, pc) == 0)
                case Load =>
                  (k < s || k == s + 1) && (k == AddAt(pc) ==> FlushAt(c, pc) == 0) && !SyncAt(c, pc, k).InVariable?
                case SkipIfNegative(n) =>
                  n == 3 && k + 4 <= s && items[k + 3] == Load && SyncAt(c, pc, k).InBoth? && k > AddAt(pc)
                case Yield => k + 1 < s && items[k + 1] == Load && SyncAt(c, pc, k).InBoth? && k > AddAt(pc)
                case Source => k == s && !SyncAt(c, pc, k).InMemory?)
  {
    var c, pc := code[f.func], f.at.pc;
    if pc < |c.ops| {
      Shape(c, pc);
    }
  }

  ghost predicate Upcomes<D>(g: Guest<D>, code: seq<Compiled>, f: CallFrame, item: Item)
    requires FrameOk(g, code, f)
  {
    var items := code[f.func].code[f.at.pc];
    f.k < |items| && items[f.k] == item
  }

  lemma AddBalances<D>(g: Guest<D>, code: seq<Compiled>, f: CallFrame, mem: Counter, count: nat, n: nat)
    requires FrameOk(g, code, f) && Upcomes(g, code, f, AddCount(n)) && Balanced(g, code, f, mem, count)
    ensures var f' := f.(k := f.k + 1, count := Wrap(f.count + n));
            FrameOk(g, code, f') && Abs(g, code, f') == Abs(g, code, f) && Balanced(g, code, f', mem, count)
  {
    Upcoming(g, code, f);
    var owed := OwedAt(code[f.func], f.at.pc, f.k);
    assert OwedAt(code[f.func], f.at.pc, f.k + 1) == owed - n;
    AddShifts(f.count, n, mem.bound, owed);
  }

  lemma AddShifts(v: int, n: int, bound: int, owed: int)
    ensures Wrap(Wrap(v + n) + bound + (owed - n)) == Wrap(v + bound + owed)
  {
  }

  lemma SaveBalances<D>(g: Guest<D>, code: seq<Compiled>, f: CallFrame, mem: Counter, count: nat)
    requires FrameOk(g, code, f) && Upcomes(g, code, f, Save) && Balanced(g, code, f, mem, count)
    ensures var f', mem' := f.(k := f.k + 1), mem.(adj := f.count);
            FrameOk(g, code, f') && Abs(g, code, f') == Abs(g, code, f) && Balanced(g, code, f', mem', count)
  {
    Upcoming(g, code, f);
    assert OwedAt(code[f.func], f.at.pc, f.k + 1) == OwedAt(code[f.func], f.at.pc, f.k);
  }

  lemma LoadBalances<D>(g: Guest<D>, code: seq<Compiled>, f: CallFrame, mem: Counter, count: nat)
    requires FrameOk(g, code, f) && Upcomes(g, code, f, Load) && Balanced(g, code, f, mem, count)
    ensures var f' := f.(k := f.k + 1, count := mem.adj);
            FrameOk(g, code, f') && Abs(g, code, f') == Abs(g, code, f) && Balanced(g, code, f', mem, count)
  {
    Upcoming(g, code, f);
  }

  lemma SkipBalances<D>(g: Guest<D>, code: seq<Compiled>, f: CallFrame, mem: Counter, count: nat, n: nat)
    requires FrameOk(g, code, f) && Upcomes(g, code, f, SkipIfNegative(n)) && Balanced(g, code, f, mem, count)
    ensures var f' := if f.count < 0 then f.(k := f.k + 1 + n) else f.(k := f.k + 1);
            FrameOk(g, code, f') && Abs(g, code, f') == Abs(g, code, f) && Balanced(g, code, f', mem, count)
  {
    Upcoming(g, code, f);
  }

  lemma YieldBalances<D>(g: Guest<D>, code: seq<Compiled>, f: CallFrame, mem: Counter, count: nat)
    requires FrameOk(g, code, f) && Upcomes(g, code, f, Yield) && Balanced(g, code, f, mem, count)
    ensures var f' := f.(k := f.k + 1);
            FrameOk(g, code, f') && Abs(g, code, f') == Abs(g, code, f) && Balanced(g, code, f', mem, count)
    ensures mem.adj == f.count
  {
    Upcoming(g, code, f);
  }

  /** Moving the top frame within its operator's code, before the operator takes effect. */
  lemma TopSettles<D>(
      g: Guest<D>, code: seq<Compiled>, m: Machine<D>, r: Run<D>, f: CallFrame, mem: Counter, mode: Mode)
    requires Rel(g, code, m, r) && m.mode.Going?
    requires FrameOk(g, code, f) && Abs(g, code, f) == Abs(g, code, m.Top()) && Balanced(g, code, f, mem, r.count)
    requires mode.Going? || (mode.BoundExpired? && f.k > 0 && code[f.func].code[f.at.pc][f.k - 1] == Yield)
    ensures Rel(g, code, m.SetTop(f).(mem := mem, mode := mode), r)
  {
    SetTopMatches(g, code, m, r, f);
  }

  /** An item other than the operator's own code keeps the top frame balanced. */
  lemma ItemBalances<D>(g: Guest<D>, code: seq<Compiled>, m: Machine<D>, item: Item, count: nat)
    requires m.HasTop() && FrameOk(g, code, m.Top()) && Balanced(g, code, m.Top(), m.mem, count)
    requires Upcomes(g, code, m.Top(), item) && !item.Source?
    requires Steppable(g, Activation(m.Top().func, m.Top().at))
    ensures var m' := Perform(g, m, item);
            && m'.HasTop() && m.SetTop(m'.Top()).frames == m'.frames
            && FrameOk(g, code, m'.Top()) && Abs(g, code, m'.Top()) == Abs(g, code, m.Top())
            && Balanced(g, code, m'.Top(), m'.mem, count)
            && m' == m.SetTop(m'.Top()).(mem := m'.mem, mode := if item.Yield? then BoundExpired else m.mode)
            && (item.Yield? ==> m'.Top().k > 0 && code[m'.Top().func].code[m'.Top().at.pc][m'.Top().k - 1] == Yield)
  {
    hide FrameOk, Balanced, Abs;
    var f := m.Top();
    match item {
      case AddCount(n) => AddBalances(g, code, f, m.mem, count, n);
      case Save => SaveBalances(g, code, f, m.mem, count);
      case Load => LoadBalances(g, code, f, m.mem, count);
      case SkipIfNegative(n) => SkipBalances(g, code, f, m.mem, count, n);
      case Yield => YieldBalances(g, code, f, m.mem, count);
    }
  }

  lemma ItemSimulates<D>(g: Guest<D>, code: seq<Compiled>, m: Machine<D>, r: Run<D>, item: Item)
    requires Rel(g, code, m, r) && m.mode.Going? && !item.Source?
    requires Upcomes(g, code, m.Top(), item)
    requires Steppable(g, Activation(m.Top().func, m.Top().at))
    ensures Rel(g, code, Perform(g, m, item), r)
    ensures Perform(g, m, item).retired == m.retired
  {
    ItemBalances(g, code, m, item, r.count);
    var m' := Perform(g, m, item);
    hide FrameOk, Balanced, Abs, Rel, Perform, Upcomes;
    TopSettles(g, code, m, r, m'.Top(), m'.mem, m'.mode);
  }

  // ---- The operator's own code ----

  lemma WaitingOwesTheReturn<D>(g: Guest<D>, code: seq<Compiled>, f: CallFrame)
    requires FrameOk(g, code, f) && Waiting(g, code, f)
    ensures SyncAt(code[f.func], f.at.pc, f.k).InMemory?
    ensures OwedAt(code[f.func], f.at.pc, f.k) == 1
  {
    Shape(code[f.func], f.at.pc);
  }

  /** At its own code every operator has been paid for, up to what is left for a later flush; a checked
      operator and the epilogue have also put the count in memory. */
  lemma PaidAtSource<D>(g: Guest<D>, code: seq<Compiled>, f: CallFrame)
    requires FrameOk(g, code, f) && Upcomes(g, code, f, Source)
    ensures var c, pc := code[f.func], f.at.pc;
            && f.k == SourceAt(c, pc)
            && OwedAt(c, pc, f.k) == Owing(c, pc) - FlushAt(c, pc)
            && !SyncAt(c, pc, f.k).InMemory?
            && (pc == |c.ops| || ChecksAt(c, pc) ==> SyncAt(c, pc, f.k).InBoth?)
  {
    Upcoming(g, code, f);
    if f.at.pc < |code[f.func].ops| {
      Shape(code[f.func], f.at.pc);
    }
  }

  lemma ExitSimulates<D>(g: Guest<D>, code: seq<Compiled>, m: Machine<D>, r: Run<D>)
    requires Matches(g, code, m, r) && m.HasTop() && m.mode.Going? && r.status.Running?
    requires Wrap(m.mem.adj + m.mem.bound) == Wrap(r.count)
    ensures Rel(g, code, Exit(m), Leave(r))
  {
    if |m.frames| > 1 {
      var n := |m.frames| - 1;
      var f := m.frames[n - 1];
      assert Parked(g, code, f);
      WaitingOwesTheReturn(g, code, f);
      WrapShift(m.mem.adj + m.mem.bound, r.count, 1);
      assert m.frames[..n] != [] && r.acts[..n] != [];
      assert Exit(m).Top() == f;
    }
  }

  lemma EntryOk<D>(g: Guest<D>, code: seq<Compiled>, f: nat)
    requires Built(g, code) && f < |code| && g.funcs[f].Body?
    ensures var e := CallFrame(f, ENTRY, 0, 0);
            && FrameOk(g, code, e) && Abs(g, code, e) == Activation(f, ENTRY)
            && SyncAt(code[f], 0, 0).InMemory? && OwedAt(code[f], 0, 0) == 0
  {
    DepthsFit(code[f], 0);
    assert Opens(code[f].states[0].trans.frames) == [-1];
  }

  lemma InvokeSimulates<D>(g: Guest<D>, code: seq<Compiled>, m: Machine<D>, r: Run<D>, f: nat)
    requires Built(g, code)
    requires Matches(g, code, m, r) && m.HasTop() && m.mode.Going? && r.status.Running?
    requires Waiting(g, code, m.Top())
    requires Wrap(m.mem.adj + m.mem.bound) == Wrap(r.count)
    ensures Rel(g, code, Invoke(g, m, f), Enter(g, r, f))
  {
    if f < |g.funcs| && |m.frames| < g.maxDepth && g.funcs[f].Body? {
      EntryOk(g, code, f);
      assert Invoke(g, m, f).Top() == CallFrame(f, ENTRY, 0, 0);
    }
  }

  /** After a local operator the next place owes exactly what is still unflushed. */
  lemma OwedAfterTransfer(c: Compiled, at: Place, choice: nat)
    requires c.Valid() && WellPlaced(c, at) && at.pc < |c.ops|
    requires PlaceIn(c.ops, at.labels) && IsLocal(c.ops[at.pc]) && DepthsOk(c.ops[at.pc], |at.labels|)
    ensures var to := Transfer(c.ops, at, choice);
            && WellPlaced(c, to)
            && to.pc > 0
            && Owing(c, to.pc) == Owing(c, at.pc) - FlushAt(c, at.pc) + PriceAt(c, at.pc)
  {
    var to := Transfer(c.ops, at, choice);
    TransferStays(c, at, choice);
    assert c.StepAt(at.pc);
    if Flushes(c.ops[at.pc]) {
      if to.pc == at.pc + 1 {
        NothingOwedAfter(c, at.pc);
      } else {
        NothingOwedAfter(c, to.pc - 1);
      }
    }
  }

  lemma LocalSimulates<D>(g: Guest<D>, code: seq<Compiled>, f: CallFrame, mem: Counter, count: nat, choice: nat)
    requires FrameOk(g, code, f) && f.at.pc < |code[f.func].ops| && IsLocal(code[f.func].ops[f.at.pc])
    requires DepthsOk(code[f.func].ops[f.at.pc], |f.at.labels|)
    requires var c, pc := code[f.func], f.at.pc;
             Wrap(f.count + mem.bound + (Owing(c, pc) - FlushAt(c, pc))) == Wrap(count)
    ensures var ops := code[f.func].ops;
            var f' := f.(at := Transfer(ops, f.at, choice), k := 0);
            && FrameOk(g, code, f')
            && Abs(g, code, f') == Activation(f.func, f'.at)
            && Balanced(g, code, f', mem, count + OpCost(ops[f.at.pc]))
  {
    var c := code[f.func];
    OwedAfterTransfer(c, f.at, choice);
    var to := Transfer(c.ops, f.at, choice);
    PlacesAreLabels(c, to.pc);
    DepthsFit(c, to.pc);
    var owed := Owing(c, f.at.pc) - FlushAt(c, f.at.pc);
    WrapShift(f.count + mem.bound + owed, count, PriceAt(c, f.at.pc));
    assert f.count + mem.bound + owed + PriceAt(c, f.at.pc) == f.count + mem.bound + OwedAt(c, to.pc, 0);
  }

  lemma CanStep<D>(g: Guest<D>, code: seq<Compiled>, f: CallFrame)
    requires FrameOk(g, code, f)
    ensures Wired(g, code, f)
    ensures f.at.pc < |code[f.func].ops| ==> DepthsOk(code[f.func].ops[f.at.pc], |f.at.labels|)
  {
  }

  /** The top frame is about to execute its operator's own code (or the final return), paid for. */
  ghost predicate AtSource<D>(g: Guest<D>, code: seq<Compiled>, m: Machine<D>, r: Run<D>) {
    && m.mode.Going? && r.status.Running?
    && Matches(g, code, m, r) && m.HasTop()
    && var t := m.Top();
    && var c, pc := code[t.func], t.at.pc;
    && t.k == SourceAt(c, pc) && |c.code[pc]| == t.k + (if CallsAt(c, pc) then 2 else 1)
    && r.acts[|r.acts| - 1] == Activation(t.func, t.at)
    && Wired(g, code, t)
    && Wrap(t.count + m.mem.bound + (Owing(c, pc) - FlushAt(c, pc))) == Wrap(r.count)
    && (pc == |c.ops| || ChecksAt(c, pc) ==> m.mem.adj == t.count)
  }

  ghost predicate AtOp<D>(g: Guest<D>, code: seq<Compiled>, m: Machine<D>, r: Run<D>, op: Op) {
    && AtSource(g, code, m, r)
    && var ops := code[m.Top().func].ops;
    && m.Top().at.pc < |ops| && ops[m.Top().at.pc] == op
  }

  lemma ReachesSource<D>(g: Guest<D>, code: seq<Compiled>, m: Machine<D>, r: Run<D>)
    requires Rel(g, code, m, r) && m.mode.Going? && Upcomes(g, code, m.Top(), Source)
    ensures AtSource(g, code, m, r)
  {
    CanStep(g, code, m.Top());
    Upcoming(g, code, m.Top());
    PaidAtSource(g, code, m.Top());
  }

  /** A call that has taken effect leaves its frame waiting, one return still to be counted. */
  lemma CallTakesEffect<D>(g: Guest<D>, code: seq<Compiled>, m: Machine<D>, r: Run<D>, op: Op)
    requires AtOp(g, code, m, r, op) && op.Calls()
    ensures var t := m.Top();
            var t1 := t.(k := t.k + 1);
            && FrameOk(g, code, t1) && Waiting(g, code, t1)
            && Abs(g, code, t1) == Activation(t.func, t.at.(pc := t.at.pc + 1))
            && Wrap(m.mem.adj + m.mem.bound) == Wrap(r.count + OpCost(op))
  {
    var t := m.Top();
    WrapShift(m.mem.adj + m.mem.bound - OpCost(op), r.count, OpCost(op));
  }

  lemma CallSimulates<D>(g: Guest<D>, code: seq<Compiled>, m: Machine<D>, r: Run<D>, op: Op, choice: nat)
    requires Built(g, code) && AtOp(g, code, m, r, op) && op.Calls()
    ensures Rel(g, code, Effect(g, m, op, choice), Apply(g, r, op, choice))
  {
    CallTakesEffect(g, code, m, r, op);
    var t1 := m.Top().(k := m.Top().k + 1);
    var r1 := r.(count := r.count + OpCost(op), acts := r.acts[|r.acts| - 1 := Abs(g, code, t1)]);
    ReplaceTop(g, code, m, r, t1, r.count + OpCost(op));
    CallIs(g, code, m, r, op, choice);
    hide FrameOk, Waiting, Abs, AtOp, Rel, Matches, Built, Effect, Apply, Invoke, Enter;
    InvokeSimulates(g, code, m.SetTop(t1), r1, Callee(g, op, choice));
  }

  /** What a call is on both sides: the caller moves on, then the callee is entered. */
  lemma CallIs<D>(g: Guest<D>, code: seq<Compiled>, m: Machine<D>, r: Run<D>, op: Op, choice: nat)
    requires Built(g, code) && AtOp(g, code, m, r, op) && op.Calls()
    requires var t1 := m.Top().(k := m.Top().k + 1);
             && FrameOk(g, code, t1)
             && Abs(g, code, t1) == Activation(m.Top().func, m.Top().at.(pc := m.Top().at.pc + 1))
    ensures var t1 := m.Top().(k := m.Top().k + 1);
            var r1 := r.(count := r.count + OpCost(op), acts := r.acts[|r.acts| - 1 := Abs(g, code, t1)]);
            && m.HasTop() && m.mode.Going? && r.status.Running?
            && Effect(g, m, op, choice) == Invoke(g, m.SetTop(t1), Callee(g, op, choice))
            && Apply(g, r, op, choice) == Enter(g, r1, Callee(g, op, choice))
  {
    hide Enter, Invoke;
  }

  lemma ReplaceTop<D>(g: Guest<D>, code: seq<Compiled>, m: Machine<D>, r: Run<D>, f: CallFrame, count: nat)
    requires Matches(g, code, m, r) && m.HasTop() && FrameOk(g, code, f)
    ensures var r' := r.(count := count, acts := r.acts[|r.acts| - 1 := Abs(g, code, f)]);
            Matches(g, code, m.SetTop(f), r')
  {
  }

  lemma ReturnSimulates<D>(g: Guest<D>, code: seq<Compiled>, m: Machine<D>, r: Run<D>)
    requires AtSource(g, code, m, r)
    requires var c, pc := code[m.Top().func], m.Top().at.pc; pc == |c.ops| || c.ops[pc].Return?
    ensures Rel(g, code, Exit(m), Leave(r))
  {
    var t := m.Top();
    if t.at.pc == |code[t.func].ops| {
      AlwaysMirrors(code[t.func], t.at.pc);
    }
    ExitSimulates(g, code, m, r);
  }

  lemma LocalStepSimulates<D>(g: Guest<D>, code: seq<Compiled>, m: Machine<D>, r: Run<D>, op: Op, choice: nat)
    requires AtOp(g, code, m, r, op) && IsLocal(op)
    ensures Rel(g, code, Effect(g, m, op, choice), Apply(g, r, op, choice))
  {
    var t := m.Top();
    LocalSimulates(g, code, t, m.mem, r.count, choice);
  }

  lemma EffectSimulates<D>(g: Guest<D>, code: seq<Compiled>, m: Machine<D>, r: Run<D>, op: Op, choice: nat)
    requires Built(g, code) && AtOp(g, code, m, r, op)
    ensures Rel(g, code, Effect(g, m, op, choice), Apply(g, r, op, choice))
  {
    if op.Return? {
      ReturnSimulates(g, code, m, r);
    } else if op.Calls() {
      CallSimulates(g, code, m, r, op, choice);
    } else if !op.Unreachable? {
      LocalStepSimulates(g, code, m, r, op, choice);
    }
  }

  lemma SameAtSource<D>(g: Guest<D>, code: seq<Compiled>, m: Machine<D>, r: Run<D>, retired: nat, data: D)
    requires AtSource(g, code, m, r)
    ensures AtSource(g, code, m.(retired := retired, data := data), r.(data := data))
  {
  }

  lemma SourceSimulates<D>(g: Guest<D>, code: seq<Compiled>, m: Machine<D>, r: Run<D>)
    requires Built(g, code) && AtSource(g, code, m, r)
    ensures Rel(g, code, Execute(g, m), Step(g, r))
  {
    var t := m.Top();
    var m1 := m.(retired := m.retired + 1);
    if t.at.pc == |code[t.func].ops| {
      SameAtSource(g, code, m, r, m.retired + 1, m.data);
      ReturnSimulates(g, code, m1, r);
    } else {
      var op := code[t.func].ops[t.at.pc];
      match g.eval(op, m.data)
      case Trap =>
      case Goes(choice, data) =>
        SameAtSource(g, code, m, r, m.retired + 1, data);
        EffectSimulates(g, code, m1.(data := data), r.(data := data), op, choice);
    }
  }

  lemma AfterCall(c: Compiled, at: Place)
    requires c.Valid() && WellPlaced(c, at) && CallsAt(c, at.pc)
    ensures WellPlaced(c, at.(pc := at.pc + 1)) && PlaceIn(c.ops, at.labels) && Depths(c, at.pc + 1)
    ensures Owing(c, at.pc + 1) == 1
  {
    assert c.StepAt(at.pc);
    PlacesAreLabels(c, at.pc);
    DepthsFit(c, at.pc + 1);
  }

  /** Control falls from a call's reload into the code of the next operator. */
  lemma FallThroughSimulates<D>(g: Guest<D>, code: seq<Compiled>, m: Machine<D>, r: Run<D>)
    requires Rel(g, code, m, r) && m.mode.Going? && Wired(g, code, m.Top())
    requires m.Top().k >= |code[m.Top().func].code[m.Top().at.pc]|
    ensures Rel(g, code, GoOn(g, code, m), r)
  {
    var f := m.Top();
    FallThroughBalances(g, code, f, m.mem, r.count);
    TopSettles(g, code, m, r, f.(at := f.at.(pc := f.at.pc + 1), k := 0), m.mem, Going);
  }

  lemma FallThroughBalances<D>(g: Guest<D>, code: seq<Compiled>, f: CallFrame, mem: Counter, count: nat)
    requires FrameOk(g, code, f) && f.k >= |code[f.func].code[f.at.pc]| && Balanced(g, code, f, mem, count)
    ensures var f' := f.(at := f.at.(pc := f.at.pc + 1), k := 0);
            FrameOk(g, code, f') && Abs(g, code, f') == Abs(g, code, f) && Balanced(g, code, f', mem, count)
  {
    Upcoming(g, code, f);
    Shape(code[f.func], f.at.pc);
    AfterCall(code[f.func], f.at);
    assert OwedAt(code[f.func], f.at.pc, f.k) == 1;
    assert OwedAt(code[f.func], f.at.pc + 1, 0) == 1;
  }

  lemma GoSimulates<D>(g: Guest<D>, code: seq<Compiled>, m: Machine<D>, r: Run<D>)
    requires Built(g, code) && Rel(g, code, m, r) && m.mode.Going?
    ensures var m' := GoOn(g, code, m);
            && m.retired <= m'.retired <= m.retired + 1
            && Rel(g, code, m', if m'.retired == m.retired then r else Step(g, r))
  {
    var f := m.Top();
    CanStep(g, code, f);
    var items := code[f.func].code[f.at.pc];
    if f.k >= |items| {
      FallThroughSimulates(g, code, m, r);
    } else if items[f.k].Source? {
      ReachesSource(g, code, m, r);
      SourceSimulates(g, code, m, r);
    } else {
      ItemSimulates(g, code, m, r, items[f.k]);
    }
  }

  lemma ReboundBalances<D>(g: Guest<D>, code: seq<Compiled>, f: CallFrame, mem: Counter, count: nat, delta: nat)
    requires FrameOk(g, code, f) && Balanced(g, code, f, mem, count) && delta <= MAX
    requires SyncAt(code[f.func], f.at.pc, f.k).InMemory?
    ensures Balanced(g, code, f, SetBoundDelta(mem, delta), count)
  {
    SetBoundDeltaPreservesTotal(mem, delta, OwedAt(code[f.func], f.at.pc, f.k));
  }

  lemma YieldLeavesMemory<D>(g: Guest<D>, code: seq<Compiled>, f: CallFrame)
    requires FrameOk(g, code, f) && f.k > 0 && code[f.func].code[f.at.pc][f.k - 1] == Yield
    ensures SyncAt(code[f.func], f.at.pc, f.k).InMemory?
  {
  }

  lemma ReboundSimulates<D>(g: Guest<D>, code: seq<Compiled>, m: Machine<D>, r: Run<D>, delta: nat)
    requires Rel(g, code, m, r) && delta <= MAX
    requires m.mode.BoundExpired? || m.mode.Hosting?
    ensures Rel(g, code, Advance(g, code, m, Rebound(delta)), r)
  {
    SetBoundDeltaPreservesTotal(m.mem, delta, 0);
    hide SetBoundDelta, Wrap, GoOn, FrameOk, Waiting, Paired, Parked, OwedAt;
    if m.mode.BoundExpired? {
      YieldLeavesMemory(g, code, m.Top());
      ReboundBalances(g, code, m.Top(), m.mem, r.count, delta);
      assert Matches(g, code, m.(mem := SetBoundDelta(m.mem, delta), mode := Going), r);
    }
  }

  lemma HostReturnSimulates<D>(g: Guest<D>, code: seq<Compiled>, m: Machine<D>, r: Run<D>)
    requires Built(g, code) && Rel(g, code, m, r) && m.mode.Hosting?
    ensures Rel(g, code, Advance(g, code, m, Go), Step(g, r))
  {
    var f := m.Top();
    WaitingOwesTheReturn(g, code, f);
    WrapShift(m.mem.adj + m.mem.bound, r.count, 1);
    assert Balanced(g, code, f, m.mem, r.count + 1);
  }

  /** One event of the compiled program is at most one step of the reference interpreter. */
  lemma Simulates<D>(g: Guest<D>, code: seq<Compiled>, m: Machine<D>, r: Run<D>, e: Event)
    requires Built(g, code) && Rel(g, code, m, r)
    ensures var m' := Advance(g, code, m, e);
            && m.retired <= m'.retired <= m.retired + 1
            && Rel(g, code, m', if m'.retired == m.retired then r else Step(g, r))
  {
    match (m.mode, e)
    case (Going, Go) => GoSimulates(g, code, m, r);
    case (Hosting(f), Go) => HostReturnSimulates(g, code, m, r);
    case (Hosting(f), Rebound(d)) => if d <= MAX { ReboundSimulates(g, code, m, r, d); }
    case (BoundExpired, Rebound(d)) => if d <= MAX { ReboundSimulates(g, code, m, r, d); }
    case _ =>
  }
}
