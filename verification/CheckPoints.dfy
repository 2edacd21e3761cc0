/** What a check decides: exactly when the bound expires there. */
module CheckPoints {
  import opened Int64
  import opened Wasm
  import opened Instrumentation
  import opened CodeShape
  import opened Target
  import opened ExactCount
  import opened Counting
  import opened Slices
  import opened SliceTheorems

  /** The guest is about to look at the sign of its counter. */
  predicate AtCheck<D>(code: seq<Compiled>, m: Machine<D>) {
    && m.mode.Going? && m.HasTop() && InCode(code, m.Top())
    && var items := code[m.Top().func].code[m.Top().at.pc];
    && m.Top().k < |items| && items[m.Top().k].SkipIfNegative?
  }

  /** At a check the checked operator has been paid for, and the level is what the counter variable holds. */
  lemma CheckReadsLevel<D>(g: Guest<D>, code: seq<Compiled>, m: Machine<D>, r: Run<D>, limit: int)
    requires Built(g, code) && InSlice(g, code, m, r, limit) && AtCheck(code, m)
    ensures var f := m.Top();
            var c, pc := code[f.func], f.at.pc;
            && pc <= |c.ops| && c.Valid() && Depths(c, pc)
            && f.k + 4 == SourceAt(c, pc) < |c.code[pc]|
            && c.code[pc][f.k] == SkipIfNegative(3) && c.code[pc][f.k + 1] == Save && c.code[pc][f.k + 2] == Yield
            && f.count == r.count + PriceAt(c, pc) - limit
            && Wired(g, code, f)
  {
    InSliceIsLive(g, code, m, r, limit);
    hide InSlice, Rel, Matches;
    LevelIsExact(g, code, m, r, limit);
    Upcoming(g, code, m.Top());
    CheckIsPaid(g, code, m.Top());
    CanStep(g, code, m.Top());
  }

  lemma CheckIsPaid<D>(g: Guest<D>, code: seq<Compiled>, f: CallFrame)
    requires FrameOk(g, code, f) && Upcomes(g, code, f, SkipIfNegative(3))
    ensures var c, pc := code[f.func], f.at.pc;
            && f.k + 4 == SourceAt(c, pc) < |c.code[pc]|
            && c.code[pc][f.k + 1] == Save && c.code[pc][f.k + 2] == Yield
            && OwedAt(c, pc, f.k) == 0 - PriceAt(c, pc)
  {
    Upcoming(g, code, f);
    if f.at.pc < |code[f.func].ops| {
      Shape(code[f.func], f.at.pc);
    }
  }

  lemma NegativePasses<D>(g: Guest<D>, code: seq<Compiled>, m: Machine<D>)
    requires AtCheck(code, m) && Wired(g, code, m.Top()) && m.Top().count < 0
    requires code[m.Top().func].code[m.Top().at.pc][m.Top().k] == SkipIfNegative(3)
    ensures Coast(g, code, m, 1) == m.SetTop(m.Top().(k := m.Top().k + 4))
  {
    assert Coast(g, code, m, 1) == Advance(g, code, m, Go);
  }

  lemma OthersYield<D>(g: Guest<D>, code: seq<Compiled>, m: Machine<D>)
    requires AtCheck(code, m) && Wired(g, code, m.Top()) && m.Top().count >= 0
    requires var f := m.Top();
             var items := code[f.func].code[f.at.pc];
             f.k + 2 < |items| && items[f.k] == SkipIfNegative(3) && items[f.k + 1] == Save && items[f.k + 2] == Yield
    ensures Coast(g, code, m, 3).mode.BoundExpired? && Coast(g, code, m, 3).mem.adj == m.Top().count
  {
    var f := m.Top();
    var m1 := m.SetTop(f.(k := f.k + 1));
    var m2 := m.SetTop(f.(k := f.k + 2)).(mem := m.mem.(adj := f.count));
    hide Execute, Steppable;
    assert Advance(g, code, m, Go) == m1 && Advance(g, code, m1, Go) == m2;
    assert Coast(g, code, m, 1) == m1;
    assert Coast(g, code, m, 2) == m2;
    assert Coast(g, code, m, 3) == Advance(g, code, m2, Go);
  }

  /** The bound expires at a check exactly if the count, with the checked operator, has reached it; else the
      guest goes straight on to the operator. */
  lemma CheckDecides<D>(g: Guest<D>, code: seq<Compiled>, m: Machine<D>, r: Run<D>, limit: int)
    requires Built(g, code) && InSlice(g, code, m, r, limit) && AtCheck(code, m)
    ensures var f := m.Top();
            f.func < |code| && code[f.func].Valid() && f.at.pc <= |code[f.func].ops| && Depths(code[f.func], f.at.pc)
    ensures var f := m.Top();
            var reached := r.count + PriceAt(code[f.func], f.at.pc);
            if reached >= limit then
              Coast(g, code, m, 3).mode.BoundExpired? && Coast(g, code, m, 3).mem.adj == reached - limit
            else Coast(g, code, m, 1) == m.SetTop(f.(k := SourceAt(code[f.func], f.at.pc)))
  {
    CheckReadsLevel(g, code, m, r, limit);
    hide InSlice, Built, Wired, Coast;
    if m.Top().count < 0 {
      NegativePasses(g, code, m);
    } else {
      OthersYield(g, code, m);
    }
  }

  // ---- A bound of no distance ----

  lemma StepCounts<D>(g: Guest<D>, s: Run<D>)
    ensures Step(g, s).count >= s.count
  {
    hide Transfer, Branch;
  }

  lemma {:induction false} StepsCount<D>(g: Guest<D>, s: Run<D>, n: nat)
    ensures Steps(g, s, n).count >= s.count
  {
    if n > 0 {
      StepsCount(g, s, n - 1);
      StepCounts(g, Steps(g, s, n - 1));
    }
  }

  /** The first step from an expired bound takes the checked operator into effect, at its price, or traps. */
  lemma CheckedIsCharged<D>(g: Guest<D>, code: seq<Compiled>, m: Machine<D>, r: Run<D>)
    requires Built(g, code) && Rel(g, code, m, r) && m.mode.BoundExpired?
    ensures Step(g, r).status.Trapped? || Step(g, r).count >= r.count + PriceAt(code[m.Top().func], m.Top().at.pc)
  {
    var f := m.Top();
    assert Paired(g, code, f, r.acts[|r.acts| - 1]);
    CanStep(g, code, f);
    Upcoming(g, code, f.(k := f.k - 1));
    hide Transfer, Branch;
  }

  lemma {:induction false} CoastAdd<D>(g: Guest<D>, code: seq<Compiled>, m: Machine<D>, j: nat, k: nat)
    ensures Coast(g, code, Coast(g, code, m, j), k) == Coast(g, code, m, j + k)
  {
    hide Advance;
    if k > 0 {
      CoastAdd(g, code, m, j, k - 1);
    }
  }

  /** A guest resumed from an expired bound reloads its counter and takes the checked operator into effect
      before it can reach another check. */
  lemma ResumedRetires<D>(g: Guest<D>, code: seq<Compiled>, m: Machine<D>, n: nat)
    requires m.mode.Going? && m.HasTop() && FrameOk(g, code, m.Top()) && Wired(g, code, m.Top())
    requires m.Top().k > 0 && code[m.Top().func].code[m.Top().at.pc][m.Top().k - 1] == Yield
    requires AtCheck(code, Coast(g, code, m, n))
    ensures Coast(g, code, m, n).retired > m.retired
  {
    hide Advance, AtCheck, FrameOk, Wired, Coast;
    ReloadsAfterYield(g, code, m.Top());
    ReloadSteps(g, code, m);
    FirstSteps(g, code, m);
    if n >= 2 {
      CoastAdd(g, code, m, 2, n - 2);
      CoastRetires(g, code, Coast(g, code, m, 2), n - 2);
    }
  }

  lemma FirstSteps<D>(g: Guest<D>, code: seq<Compiled>, m: Machine<D>)
    ensures Coast(g, code, m, 0) == m
    ensures Coast(g, code, m, 1) == Advance(g, code, m, Go)
    ensures Coast(g, code, m, 2) == Advance(g, code, Advance(g, code, m, Go), Go)
  {
    hide Advance;
  }

  lemma ReloadsAfterYield<D>(g: Guest<D>, code: seq<Compiled>, f: CallFrame)
    requires FrameOk(g, code, f) && f.k > 0 && code[f.func].code[f.at.pc][f.k - 1] == Yield
    ensures var items := code[f.func].code[f.at.pc];
            f.k + 1 < |items| && items[f.k] == Load && items[f.k + 1] == Source
  {
    AfterYield(g, code, f);
    ReloadsThenRuns(g, code, f);
  }

  lemma ReloadSteps<D>(g: Guest<D>, code: seq<Compiled>, m: Machine<D>)
    requires m.mode.Going? && m.HasTop() && Wired(g, code, m.Top())
    requires var f := m.Top();
             var items := code[f.func].code[f.at.pc];
             f.k + 1 < |items| && items[f.k] == Load && items[f.k + 1] == Source
    ensures var m1 := Advance(g, code, m, Go);
            && !AtCheck(code, m) && !AtCheck(code, m1)
            && Advance(g, code, m1, Go).retired == m.retired + 1
  {
    var m1 := m.SetTop(m.Top().(k := m.Top().k + 1, count := m.mem.adj));
    assert Advance(g, code, m, Go) == m1;
    GoIs(g, code, m1);
    hide Execute, Perform, GoOn;
  }

  lemma ReloadsThenRuns<D>(g: Guest<D>, code: seq<Compiled>, f: CallFrame)
    requires FrameOk(g, code, f) && f.k == SourceAt(code[f.func], f.at.pc) - 1
    requires ChecksAt(code[f.func], f.at.pc)
    ensures var items := code[f.func].code[f.at.pc];
            f.k + 1 < |items| && items[f.k] == Load && items[f.k + 1] == Source
  {
    Shape(code[f.func], f.at.pc);
  }

  /** A check at which the count has reached the limit expires, anywhere in a slice. */
  lemma LateCheckExpires<D>(
      g: Guest<D>, code: seq<Compiled>, m: Machine<D>, r: Run<D>, limit: int, n: nat, length: nat, cost: nat)
    requires Settings(g, code, length, cost) && InSlice(g, code, m, r, limit)
    requires AtCheck(code, Coast(g, code, m, n))
    requires var q := Beside(g, m, r, Coast(g, code, m, n)); q.count >= limit || q.status.Trapped?
    ensures Coast(g, code, m, n + 3).mode.BoundExpired?
  {
    hide Coast, Beside, Fits, FrameOk;
    CoastInSlice(g, code, m, r, limit, n, length, cost);
    CoastAdd(g, code, m, n, 3);
    var p := Coast(g, code, m, n);
    InSliceIsLive(g, code, p, Beside(g, m, r, p), limit);
    NotTrapped(g, code, p, Beside(g, m, r, p), limit);
    CheckDecides(g, code, p, Beside(g, m, r, p), limit);
  }

  lemma NotTrapped<D>(g: Guest<D>, code: seq<Compiled>, m: Machine<D>, r: Run<D>, limit: int)
    requires InSlice(g, code, m, r, limit)
    ensures !r.status.Trapped?
  {
    hide Matches, Balanced, FrameOk, StackRest, Level, Gate;
  }

  /** However a slice starts with a bound of no distance, the first check it comes to expires. */
  lemma ZeroDeltaExpires<D>(
      g: Guest<D>, code: seq<Compiled>, f: nat, data: D, mem: Counter, count: nat, o: Origin, n: nat, length: nat,
      cost: nat)
    requires Settings(g, code, length, cost) && Ready(g, code, f, mem, count) && g.maxDepth > 0
    requires Begins(g, code, Boot(f, data, mem), o)
    requires match o case Entry => mem.adj == 0 case Resumption(_, delta) => delta == 0
    requires AtCheck(code, Coast(g, code, Began(g, code, Boot(f, data, mem), o), n))
    ensures Coast(g, code, Began(g, code, Boot(f, data, mem), o), n + 3).mode.BoundExpired?
  {
    hide Coast, Step, InSlice, Settings, AtCheck, Rel, Ready, Advance, LimitFrom, Beside;
    match o
    case Entry =>
      var m, r := Boot(f, data, mem), Start(f, data, count);
      EntryStartsSlice(g, code, f, data, mem, count, length, cost);
      BesideCounts(g, m, r, Coast(g, code, m, n));
      LateCheckExpires(g, code, m, r, count, n, length, cost);
    case Resumption(es, delta) =>
      var p := Play(g, code, Boot(f, data, mem), es);
      RunSimulates(g, code, f, data, mem, count, es);
      DepthHolds(g, code, Boot(f, data, mem), es);
      ZeroReboundExpires(g, code, p, Steps(g, Start(f, data, count), p.retired), n, length, cost);
  }

  lemma BesideCounts<D>(g: Guest<D>, m: Machine<D>, r: Run<D>, m': Machine<D>)
    ensures Beside(g, m, r, m').count >= r.count
  {
    StepsCount(g, r, if m'.retired <= m.retired then 0 else m'.retired - m.retired);
  }

  lemma ZeroReboundExpires<D>(
      g: Guest<D>, code: seq<Compiled>, p: Machine<D>, r: Run<D>, n: nat, length: nat, cost: nat)
    requires Settings(g, code, length, cost) && Rel(g, code, p, r) && |p.frames| <= g.maxDepth
    requires p.mode.BoundExpired? || p.mode.Hosting?
    requires AtCheck(code, Coast(g, code, Advance(g, code, p, Rebound(0)), n))
    ensures Coast(g, code, Advance(g, code, p, Rebound(0)), n + 3).mode.BoundExpired?
  {
    var m := Advance(g, code, p, Rebound(0));
    var limit := LimitFrom(g, code, p, r, 0);
    var q := Coast(g, code, m, n);
    ReboundStartsSlice(g, code, p, r, 0, length, cost);
    BesideCounts(g, m, r, q);
    if p.mode.BoundExpired? {
      ExpiredIsCharged(g, code, p, r, n);
    }
    hide Coast, Step, InSlice, Settings, AtCheck, Rel, Beside, Advance;
    LateCheckExpires(g, code, m, r, limit, n, length, cost);
  }

  lemma ExpiredIsCharged<D>(g: Guest<D>, code: seq<Compiled>, p: Machine<D>, r: Run<D>, n: nat)
    requires Built(g, code) && Rel(g, code, p, r) && p.mode.BoundExpired?
    requires AtCheck(code, Coast(g, code, Advance(g, code, p, Rebound(0)), n))
    ensures var m := Advance(g, code, p, Rebound(0));
            var s := Beside(g, m, r, Coast(g, code, m, n));
            s.status.Trapped? || s.count >= LimitFrom(g, code, p, r, 0)
  {
    hide Coast, Step, AtCheck, FrameOk, Wired, Built, LimitFrom;
    var m := Advance(g, code, p, Rebound(0));
    ResumedFrame(g, code, p, r);
    ResumedRetires(g, code, m, n);
    CheckedIsCharged(g, code, p, r);
    LimitOfExpired(g, code, p, r);
    hide Advance, Rel;
    var d := Coast(g, code, m, n).retired - m.retired;
    assert Steps(g, r, 1) == Step(g, r);
    StepsAdd(g, r, 1, d - 1);
    StepsCount(g, Step(g, r), d - 1);
    if Step(g, r).status.Trapped? {
      StoppedStays(g, r, 1, d);
    }
  }

  lemma ResumedFrame<D>(g: Guest<D>, code: seq<Compiled>, p: Machine<D>, r: Run<D>)
    requires Rel(g, code, p, r) && p.mode.BoundExpired?
    ensures var m := Advance(g, code, p, Rebound(0));
            && m.retired == p.retired
            && m.mode.Going? && m.HasTop() && FrameOk(g, code, m.Top()) && Wired(g, code, m.Top())
            && m.Top().k > 0 && code[m.Top().func].code[m.Top().at.pc][m.Top().k - 1] == Yield
  {
    CanStep(g, code, p.Top());
    hide Balanced, Parked;
  }

  lemma LimitOfExpired<D>(g: Guest<D>, code: seq<Compiled>, p: Machine<D>, r: Run<D>)
    requires Rel(g, code, p, r) && p.mode.BoundExpired?
    ensures LimitFrom(g, code, p, r, 0) == r.count + PriceAt(code[p.Top().func], p.Top().at.pc)
  {
    hide Balanced, Parked;
  }
}
