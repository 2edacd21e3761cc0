/** What holds of every run of a compiled guest, under every schedule of bounds. */
module Counting {
  import opened Int64
  import opened Wasm
  import opened Instrumentation
  import opened ControlStack
  import opened CodeShape
  import opened Target
  import opened ExactCount

  /** A compiled guest about to enter `f` on an instance that has counted `count` so far. */
  ghost predicate Ready<D>(g: Guest<D>, code: seq<Compiled>, f: nat, mem: Counter, count: nat) {
    && Built(g, code)
    && f < |g.funcs| && g.funcs[f].Body?
    && mem.Total() == Wrap(count)
  }

  /** After any events, the machine is related to the reference run with as many operators executed. */
  lemma {:induction false} RunSimulates<D>(
      g: Guest<D>, code: seq<Compiled>, f: nat, data: D, mem: Counter, count: nat, es: seq<Event>)
    requires Ready(g, code, f, mem, count)
    ensures var m := Play(g, code, Boot(f, data, mem), es);
            Rel(g, code, m, Steps(g, Start(f, data, count), m.retired))
  {
    if es == [] {
      EntryOk(g, code, f);
      assert Matches(g, code, Boot(f, data, mem), Start(f, data, count));
    } else {
      var p := Play(g, code, Boot(f, data, mem), es[..|es| - 1]);
      RunSimulates(g, code, f, data, mem, count, es[..|es| - 1]);
      Simulates(g, code, p, Steps(g, Start(f, data, count), p.retired), es[|es| - 1]);
    }
  }

  /** The price of the operator the top frame stands at. */
  function TopPrice<D>(g: Guest<D>, f: CallFrame): nat
    requires f.func < |g.funcs| && g.funcs[f.func].Body?
  {
    if f.at.pc < |g.funcs[f.func].ops| then OpCost(g.funcs[f.func].ops[f.at.pc]) else 0
  }

  /** Whenever the host can look, the two fields sum to the reference count: exactly when an imported
      function runs or the guest has finished, and with the checked operator already paid for when
      the bound has expired. Just after a flush the same holds of the counter variable. */
  ghost predicate Accurate<D>(g: Guest<D>, code: seq<Compiled>, m: Machine<D>, r: Run<D>) {
    match m.mode
    case Finished => r.status.Done? && m.data == r.data && m.mem.Total() == Wrap(r.count)
    case Hosting(f) => r.status == InHost(f) && m.data == r.data && m.mem.Total() == Wrap(r.count)
    case BoundExpired =>
      && r.status.Running? && m.data == r.data
      && m.HasTop() && m.Top().func < |g.funcs| && g.funcs[m.Top().func].Body?
      && m.mem.Total() == Wrap(r.count + TopPrice(g, m.Top()))
    case Going =>
      && r.status.Running? && m.data == r.data
      && m.HasTop() && Wired(g, code, m.Top())
      && (JustFlushed(code, m.Top()) ==> Wrap(m.Top().count + m.mem.bound) == Wrap(r.count + TopPrice(g, m.Top())))
    case Faulted => r.status.Trapped?
  }

  predicate JustFlushed(code: seq<Compiled>, f: CallFrame)
    requires f.func < |code| && f.at.pc < |code[f.func].code|
  {
    var items := code[f.func].code[f.at.pc];
    0 < f.k <= |items| && items[f.k - 1].AddCount?
  }

  lemma RelIsAccurate<D>(g: Guest<D>, code: seq<Compiled>, m: Machine<D>, r: Run<D>)
    requires Built(g, code) && Rel(g, code, m, r)
    ensures Accurate(g, code, m, r)
  {
    if m.mode.Going? || m.mode.BoundExpired? {
      var f := m.Top();
      CanStep(g, code, f);
      var price := PriceAt(code[f.func], f.at.pc);
      assert code[f.func].ops == g.funcs[f.func].ops;
      if m.mode.BoundExpired? {
        PaidInAdvance(g, code, f);
        WrapShift(m.mem.adj + m.mem.bound - price, r.count, price);
      } else if JustFlushed(code, f) {
        PaidInAdvance(g, code, f);
        WrapShift(f.count + m.mem.bound - price, r.count, price);
      }
    }
  }

  lemma PaidInAdvance<D>(g: Guest<D>, code: seq<Compiled>, f: CallFrame)
    requires FrameOk(g, code, f) && f.k > 0
    requires var item := code[f.func].code[f.at.pc][f.k - 1]; item.AddCount? || item.Yield?
    ensures OwedAt(code[f.func], f.at.pc, f.k) == 0 - PriceAt(code[f.func], f.at.pc)
  {
    Upcoming(g, code, f.(k := f.k - 1));
  }

  /** The emitted code counts exactly what the reference interpreter counts, on every run. */
  lemma CountsExactly<D>(
      g: Guest<D>, code: seq<Compiled>, f: nat, data: D, mem: Counter, count: nat, es: seq<Event>)
    requires Ready(g, code, f, mem, count)
    ensures var m := Play(g, code, Boot(f, data, mem), es);
            Accurate(g, code, m, Steps(g, Start(f, data, count), m.retired))
  {
    RunSimulates(g, code, f, data, mem, count, es);
    var m := Play(g, code, Boot(f, data, mem), es);
    RelIsAccurate(g, code, m, Steps(g, Start(f, data, count), m.retired));
  }

  // ---- Bounding is invisible ----

  lemma {:induction false} StoppedStays<D>(g: Guest<D>, s: Run<D>, n: nat, k: nat)
    requires n <= k && (Steps(g, s, n).status.Done? || Steps(g, s, n).status.Trapped?)
    ensures Steps(g, s, k) == Steps(g, s, n)
  {
    hide Apply, Leave;
    if n < k {
      StoppedStays(g, s, n, k - 1);
    }
  }

  /** Two runs that both finish agree on the result and on the count, whatever bounds either was given
      and wherever it was interrupted. */
  lemma BoundsAreInvisible<D>(
      g: Guest<D>, code: seq<Compiled>, f: nat, data: D, count: nat,
      mem1: Counter, es1: seq<Event>, mem2: Counter, es2: seq<Event>)
    requires Ready(g, code, f, mem1, count) && Ready(g, code, f, mem2, count)
    requires Play(g, code, Boot(f, data, mem1), es1).mode.Finished?
    requires Play(g, code, Boot(f, data, mem2), es2).mode.Finished?
    ensures var m1, m2 := Play(g, code, Boot(f, data, mem1), es1), Play(g, code, Boot(f, data, mem2), es2);
            m1.data == m2.data && m1.mem.Total() == m2.mem.Total()
  {
    CountsExactly(g, code, f, data, mem1, count, es1);
    CountsExactly(g, code, f, data, mem2, count, es2);
    var n1 := Play(g, code, Boot(f, data, mem1), es1).retired;
    var n2 := Play(g, code, Boot(f, data, mem2), es2).retired;
    if n1 <= n2 {
      StoppedStays(g, Start(f, data, count), n1, n2);
    } else {
      StoppedStays(g, Start(f, data, count), n2, n1);
    }
  }

  // ---- The counter in memory agrees with the running activation ----

  /** Whenever the next item hands control to a callee, a caller or the host, memory holds
      exactly the running activation's counter variable. */
  lemma HandsOverInMemory<D>(g: Guest<D>, code: seq<Compiled>, m: Machine<D>, r: Run<D>)
    requires Rel(g, code, m, r) && m.mode.Going?
    requires var f := m.Top();
             var c := code[f.func];
             var items := c.code[f.at.pc];
             && f.k < |items|
             && (items[f.k].Yield? ||
                 (items[f.k].Source? && (f.at.pc == |c.ops| || c.ops[f.at.pc].Calls() || c.ops[f.at.pc].Return?)))
    ensures m.mem.adj == m.Top().count
  {
    var f := m.Top();
    if code[f.func].code[f.at.pc][f.k].Yield? {
      YieldBalances(g, code, f, m.mem, r.count);
    } else {
      PaidAtSource(g, code, f);
    }
  }

  /** A callee starts with its caller's counter: two steps after the call's own code. */
  lemma CalleeInheritsCount<D>(g: Guest<D>, code: seq<Compiled>, m: Machine<D>, r: Run<D>)
    requires Built(g, code) && Rel(g, code, m, r) && m.mode.Going?
    requires var m1 := GoOn(g, code, m); m1.mode.Going? && |m1.frames| > |m.frames|
    ensures var m2 := GoOn(g, code, GoOn(g, code, m));
            m2.mode.Going? && |m2.frames| == |m.frames| + 1 && m2.Top().count == m.Top().count
  {
    var f := m.Top();
    CanStep(g, code, f);
    var items := code[f.func].code[f.at.pc];
    assert items[f.k].Source?;
    HandsOverInMemory(g, code, m, r);
    GoSimulates(g, code, m, r);
    var m1 := GoOn(g, code, m);
    assert m1.Top().at == ENTRY && m1.Top().k == 0;
    CanStep(g, code, m1.Top());
    EntryLoads(code[m1.Top().func]);
  }

  lemma EntryLoads(c: Compiled)
    requires c.Valid()
    ensures |c.code[0]| > 0 && c.code[0][0].Load?
  {
    assert |c.ops| > 0;
    assert c.StepAt(0);
  }

  /** A caller resumes with the counter of the activation that returned to it, whether by `return`, by
      falling off its end or by a branch to its own label. */
  lemma CallerTakesCountBack<D>(g: Guest<D>, code: seq<Compiled>, m: Machine<D>, r: Run<D>)
    requires Built(g, code) && Rel(g, code, m, r) && m.mode.Going?
    requires var m1 := GoOn(g, code, m); m1.mode.Going? && |m1.frames| < |m.frames|
    ensures var m2 := GoOn(g, code, GoOn(g, code, m));
            m2.mode.Going? && |m2.frames| == |m.frames| - 1 && m2.Top().count == m.Top().count
  {
    var f := m.Top();
    CanStep(g, code, f);
    var items := code[f.func].code[f.at.pc];
    assert items[f.k].Source?;
    HandsOverInMemory(g, code, m, r);
    var m1 := GoOn(g, code, m);
    hide Balanced, Transfer, OwedAt, Wrap;
    assert Parked(g, code, m1.Top());
    CanStep(g, code, m1.Top());
    Shape(code[m1.Top().func], m1.Top().at.pc);
  }
}
