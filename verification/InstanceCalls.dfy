/** What every public call tells its caller and leaves of the instance, told from the slices it swaps in. */
module InstanceCalls {
  import opened Basics
  import opened Int64
  import opened InstanceState
  import opened InstanceHistory
  import opened InstanceRuns
  import opened InstanceEnds
  import opened InstanceFutures

  /** What the host was told of slices, in order. */
  function Outcomes(h: History): seq<Outcome> {
    match h
    case Nothing => []
    case Then(b, e) => Outcomes(b) + if e.Reported? then [e.outcome] else []
  }

  function AllTold(isAsync: bool, p: seq<Slice>): (r: seq<Outcome>)
    ensures |r| == |p|
  {
    seq(|p|, k requires 0 <= k < |p| => Told(isAsync, p[k]))
  }

  /** What the slices of a call count; only the first of them can find the guest not yet entered. */
  function CountedByAll(unentered: bool, p: seq<Slice>): nat {
    if p == [] then 0 else CountedBy(unentered, p[0]) + CountedByAll(false, p[1..])
  }

  /** `t` is what the slices `p`, each with this bound, leave of `i`: the state and the remaining distance from
      the bound are those of the last slice, and everything counted has been added to the count. */
  ghost predicate Ran(i: Inst, t: Inst, isAsync: bool, bound: Option<nat>, p: seq<Slice>)
    requires p != []
  {
    var unentered, n := !IsSuspended(i), |p| - 1;
    && t.entrypoint.Some?
    && t.state == StateAfter(t.entrypoint.value.isStart, isAsync, p[n])
    && Outcomes(t.log) == Outcomes(i.log) + AllTold(isAsync, p)
    && t.counter.adj == Wrap(CountedBy(unentered && n == 0, p[n]) - Delta(bound))
    && t.counter.Total() == Wrap(i.counter.Total() + CountedByAll(unentered, p))
  }

  // ---- One slice ----

  lemma SwapReportsOnce(i: Inst, isAsync: bool, s: Slice)
    requires MayEnter(i) && Enterable(i) && Books(i)
    ensures Outcomes(SwapAndReturn(i, isAsync, s).0.log) == Outcomes(i.log) + [Told(isAsync, s)]
  {
    SwapLeaves(i, isAsync, s);
    if s.ready {
      var r := i.(state := Running(isAsync));
      Awakens(r);
      GuestReportsNothing(r, isAsync, s);
      TakeResultReportsNothing(GuestRuns(r, isAsync, s), s);
    }
    hide Enterable, Books, GuestRuns, TakeResult, Told;
  }

  lemma GuestReportsNothing(i: Inst, isAsync: bool, s: Slice)
    ensures Outcomes(GuestRuns(i, isAsync, s).log) == Outcomes(i.log)
  {
    assert Outcomes(Awaken(i).log) == Outcomes(i.log);
    assert Outcomes(Count(Awaken(i), s.counted).log) == Outcomes(i.log);
  }

  lemma TakeResultReportsNothing(i: Inst, s: Slice)
    ensures Outcomes(TakeResult(i, s).0.log) == Outcomes(i.log)
  {
    TakeResultNotes(i, s);
    hide TakeResult;
  }

  /** Swapping in what a call has prepared. */
  lemma SwapRan(i: Inst, c: Inst, isAsync: bool, bound: Option<nat>, s: Slice)
    requires BoundOk(bound) && MayEnter(c) && Enterable(c) && Books(c)
    requires c.log == i.log && c.counter == SetBoundDelta(i.counter, Delta(bound))
    requires c.ctx.Fresh? <==> !IsSuspended(i)
    ensures var (t, o) := SwapAndReturn(c, isAsync, s);
            && o == Told(isAsync, s) && Ran(i, t, isAsync, bound, [s])
            && t.entrypoint == c.entrypoint
            && t.resumed == if s.ready && Awaits(c.ctx) then None else c.resumed
  {
    hide SwapAndReturn, Enterable, Books, StateAfter, ContAfter, Told, Outcomes, Wrap, CountedBy, Ran;
    SwapLeaves(c, isAsync, s);
    SwapReportsOnce(c, isAsync, s);
    RanOnce(i, SwapAndReturn(c, isAsync, s).0, isAsync, bound, s);
  }

  lemma RanOnce(i: Inst, t: Inst, isAsync: bool, bound: Option<nat>, s: Slice)
    requires BoundOk(bound) && t.entrypoint.Some?
    requires t.state == StateAfter(t.entrypoint.value.isStart, isAsync, s)
    requires Outcomes(t.log) == Outcomes(i.log) + [Told(isAsync, s)]
    requires var c := SetBoundDelta(i.counter, Delta(bound));
             t.counter == c.(adj := Wrap(c.adj + CountedBy(!IsSuspended(i), s)))
    ensures Ran(i, t, isAsync, bound, [s])
  {
    hide StateAfter, Told, Outcomes, Wrap, CountedBy, SetBoundDelta;
    SliceCounts(i.counter, bound, CountedBy(!IsSuspended(i), s));
    assert [s][1..] == [] && CountedByAll(!IsSuspended(i), [s]) == CountedBy(!IsSuspended(i), s);
    assert AllTold(isAsync, [s]) == [Told(isAsync, s)];
  }

  lemma SliceCounts(c: Counter, bound: Option<nat>, n: nat)
    requires BoundOk(bound)
    ensures var d := SetBoundDelta(c, Delta(bound));
            var e := d.(adj := Wrap(d.adj + n));
            e.adj == Wrap(n - Delta(bound)) && e.Total() == Wrap(c.Total() + n)
  {
    hide SetBoundDelta, Wrap;
    var d := SetBoundDelta(c, Delta(bound));
    SetBoundDeltaPreservesTotal(c, Delta(bound), n);
    assert d.adj + n == n - Delta(bound);
    WrapAbsorbs(d.adj + n, d.bound);
    WrapAbsorbs(c.bound + c.adj, n);
    assert d.adj + n + d.bound == d.adj + d.bound + n;
    assert c.bound + c.adj + n == c.adj + c.bound + n;
    assert d.bound + Wrap(d.adj + n) == Wrap(d.adj + n) + d.bound;
  }

  // ---- The three ways into the guest ----

  /** A run that is accepted: whatever the instance was, the guest enters `func` with this bound. */
  lemma RunTells(i: Inst, call: Call, isAsync: bool, bound: Option<nat>, s: Slice)
    requires Inv(i) && BoundOk(bound) && (call.func.isStart ==> i.state.NotStarted?)
    requires !IsSuspended(i) && Accepts(i, call, bound)
    ensures var (t, o) := RunFunc(i, call, isAsync, bound, s);
            && o == Told(isAsync, s) && Ran(i, t, isAsync, bound, [s])
            && t.entrypoint == Some(call.func) && t.resumed == i.resumed
  {
    PreparedIsFine(i, call, bound, None);
    SwapRan(i, Prepared(i, call, bound, None), isAsync, bound, s);
    hide Inv, SwapAndReturn, Ran, Told;
  }

  /** A resume that is accepted: the guest takes exactly the value given, or the value stays for it if it could
      not be swapped in. */
  lemma ResumeTells(i: Inst, val: Value, isAsync: bool, bound: Option<nat>, s: Slice)
    requires Inv(i) && BoundOk(bound) && Fits(i, val) && i.state.Yielded? && i.state.expecting == TypeOf(val)
    ensures var (t, o) := ResumeWithVal(i, val, isAsync, bound, s);
            && o == Told(isAsync, s) && Ran(i, t, isAsync, bound, [s])
            && Deliveries(t.log) == Deliveries(i.log) + (if s.ready then [val] else [])
            && t.resumed == (if s.ready then None else Some(val))
            && t.entrypoint == i.entrypoint
  {
    var c := i.(resumed := Some(val));
    BoundKeepsBooks(c, bound);
    SwapRan(i, SetBound(c, bound), isAsync, bound, s);
    SwapDelivers(SetBound(c, bound), isAsync, s);
    hide SwapAndReturn, Ran, Told, Deliveries;
  }

  /** A bounded resume is refused exactly on an instance whose bound has not expired, and then changes nothing. */
  lemma BoundedTells(i: Inst, bound: nat, s: Slice)
    requires Inv(i) && bound <= MAX
    ensures var (t, o) := ResumeBounded(i, bound, s);
            if i.state.BoundExpired? then
              && o == Told(true, s) && Ran(i, t, true, Some(bound), [s])
              && t.entrypoint == i.entrypoint && t.resumed == i.resumed
            else t == i && o == Refused(InvalidArgument)
  {
    if i.state.BoundExpired? {
      BoundKeepsBooks(i, Some(bound));
      SwapRan(i, SetBound(i, Some(bound)), true, Some(bound), s);
    }
    hide SwapAndReturn, Ran, Told;
  }

  /** What a run is refused with; `None` if it is not. */
  function RunRefusal(i: Inst, call: Call): Option<Error> {
    if i.state.NotStarted? && !call.func.isStart then Some(NeedsStart)
    else if Unrunnable(i) || call.func.ptr == 0 || !call.argsOk then Some(InvalidArgument)
    else if !call.ctxOk then Some(ContextError)
    else None
  }

  lemma RefusalsAreExact(i: Inst, call: Call, isAsync: bool, bound: Option<nat>, s: Slice)
    requires Inv(i) && BoundOk(bound) && (call.func.isStart ==> i.state.NotStarted?)
    ensures RunRefusal(i, call).Some? ==> RunFunc(i, call, isAsync, bound, s).1 == Refused(RunRefusal(i, call).value)
    ensures !IsSuspended(i) ==> (RunRefusal(i, call).None? <==> Accepts(i, call, bound))
  {
    RunRefusals(i, call, isAsync, bound, s);
    hide RunFunc, Suspended, StartDiscipline, Accounts, Clean, Paired;
  }

  // ---- Start, reset and the counter ----

  /** Running the start function: a yield is not reported, every failure is. */
  lemma StartTells(i: Inst, call: Call, s: Slice)
    requires Inv(i) && call.func.isStart
    ensures var o := RunStart(i, call, s).1;
            o == if !i.hasStart then Returned
                 else if !i.state.NotStarted? then Refused(StartAlreadyRun)
                 else if call.func.ptr == 0 || !call.argsOk then Refused(InvalidArgument)
                 else if !call.ctxOk then Refused(ContextError)
                 else if Told(false, s).Refused? then Told(false, s)
                 else Returned
  {
    if i.hasStart && i.state.NotStarted? {
      RefusalsAreExact(i, call, false, None, s);
      if RunRefusal(i, call).None? {
        RunTells(i, call, false, None, s);
      }
    }
    hide RunFunc, Ran, Inv, Told;
  }

  /** A reset that fails says so and changes nothing. One that succeeds takes any instance back to where its
      next run has to be the start function, if there is one, and can be any function if there is none;
      kill switches lose hold of it, and nothing else changes. */
  lemma ResetRevives(i: Inst, heapOk: bool)
    requires Inv(i)
    ensures var (t, o) := Reset(i, heapOk);
            if heapOk then
              && o == Returned && Inv(t) && !NeedsReset(t)
              && t.kill != i.kill && t == i.(state := t.state, kill := t.kill, log := t.log)
              && forall call: Call ::
                   RunRefusal(t, call).None? <==>
                     && (i.hasStart ==> call.func.isStart)
                     && call.func.ptr != 0 && call.argsOk && call.ctxOk
            else t == i && o == Refused(ResetError)
  {
    ResetKeeps(i, heapOk);
    hide Inv;
  }

  /** Setting count and bound: the count is the one given, without wrap-around, and the distance left is
      negative exactly if the bound lies ahead of it. */
  lemma CountIsSet(i: Inst, count: nat, bound: nat)
    requires count <= MAX && bound <= MAX
    ensures var t := SetCount(i, count, bound);
            && t.counter.Total() == count
            && t.counter.adj + bound == count
            && (t.counter.adj < 0 <==> count < bound)
            && t == i.(counter := t.counter, log := t.log) && Tally(t.log) == count
  {
  }

  // ---- Whole async runs ----

  /** The run goes on after this turn. */
  predicate GoesOn(bound: Option<nat>, turn: Turn) {
    turn.slice.ready &&
    ((turn.slice.end.Expires? && bound.Some?) || (turn.slice.end.Blocks? && turn.output.Some?))
  }

  /** The slices of an accepted run. */
  function Played(bound: Option<nat>, turns: seq<Turn>): (p: seq<Slice>)
    ensures p == [] <==> turns == []
  {
    if turns == [] then []
    else [turns[0].slice] + if GoesOn(bound, turns[0]) then Played(bound, turns[1..]) else []
  }

  /** What an accepted run comes to. */
  function Ending(bound: Option<nat>, turns: seq<Turn>): AsyncResult {
    if turns == [] then Dropped
    else if GoesOn(bound, turns[0]) then Ending(bound, turns[1..])
    else match Told(true, turns[0].slice)
      case Returned => Complete
      case Refused(e) => Failed(e)
      case YieldedVal(User(_, _)) => Failed(Unsupported)
      case YieldedVal(_) => Dropped
      case Expired => if |turns| == 1 then Dropped else Panicked
  }

  /** The entry point of the guest that is run or resumed. */
  function EntryFor(i: Inst, call: Call): Option<Handle> {
    if IsSuspended(i) then i.entrypoint else Some(call.func)
  }

  lemma TurnRan(i: Inst, call: Call, bound: Option<nat>, resumeVal: Option<Value>, s: Slice)
    requires AtHead(i, call, resumeVal) && BoundOk(bound) && Accepts(i, call, bound)
    ensures var (t, o) := OneTurn(i, call, bound, resumeVal, s);
            && o == Told(true, s) && Ran(i, t, true, bound, [s])
            && Inv(t) && Follows(t, o) && t.entrypoint == EntryFor(i, call)
            && (t.state.Yielded? <==> s.ready && (s.end.Yields? || s.end.Blocks?))
            && (t.state.BoundExpired? <==> s.ready && s.end.Expires?)
  {
    var c := Prepared(i, call, bound, resumeVal);
    PreparedIsFine(i, call, bound, resumeVal);
    TurnIsSwap(i, call, bound, resumeVal, s);
    hide Inv, Fits, SwapAndReturn, OneTurn, Enterable, Books, MayEnter, Accepts, Told, Wrap, Outcomes, AllTold;
    SwapRan(i, c, true, bound, s);
    SwapKeeps(c, true, s);
  }

  /** Slices after slices. */
  lemma RanOn(i: Inst, t: Inst, u: Inst, isAsync: bool, bound: Option<nat>, s: Slice, p: seq<Slice>)
    requires p != [] && Ran(i, t, isAsync, bound, [s]) && IsSuspended(t) && Ran(t, u, isAsync, bound, p)
    ensures Ran(i, u, isAsync, bound, [s] + p)
  {
    hide Told, StateAfter, Outcomes, Wrap, CountedBy;
    var all := [s] + p;
    assert all[1..] == p && all[|all| - 1] == p[|p| - 1];
    assert [s][1..] == [] && CountedByAll(!IsSuspended(i), [s]) == CountedBy(!IsSuspended(i), s);
    assert AllTold(isAsync, all) == AllTold(isAsync, [s]) + AllTold(isAsync, p);
    assert Outcomes(u.log) == Outcomes(i.log) + AllTold(isAsync, all);
    assert CountedByAll(!IsSuspended(i), all) == CountedBy(!IsSuspended(i), s) + CountedByAll(false, p);
    WrapAbsorbs(i.counter.Total() + CountedByAll(!IsSuspended(i), [s]), CountedByAll(false, p));
  }

  lemma {:induction false} AsyncLoopTells(
      i: Inst, call: Call, bound: Option<nat>, resumeVal: Option<Value>, turns: seq<Turn>)
    requires AtHead(i, call, resumeVal) && BoundOk(bound) && Accepts(i, call, bound) && turns != []
    ensures var (t, o) := AsyncLoop(i, call, bound, resumeVal, turns);
            && o == Ending(bound, turns)
            && Ran(i, t, true, bound, Played(bound, turns)) && t.entrypoint == EntryFor(i, call)
    decreases |turns|
  {
    hide Inv, Fits, OneTurn, Ran, StateAfter;
    var s := turns[0].slice;
    var (t, o) := OneTurn(i, call, bound, resumeVal, s);
    TurnRan(i, call, bound, resumeVal, s);
    if GoesOn(bound, turns[0]) {
      var next := if s.end.Blocks? then Some(ResumeVal(o.val.id, o.val.tag, turns[0].output.value))
                  else if i.state.Yielded? then None else resumeVal;
      if s.end.Blocks? {
        FutureFits(t, o, turns[0].output.value);
      }
      if turns[1..] != [] {
        AsyncLoopTells(t, call, bound, next, turns[1..]);
        RanOn(i, t, AsyncLoop(t, call, bound, next, turns[1..]).0, true, bound, s, Played(bound, turns[1..]));
      } else {
        assert Played(bound, turns) == [s];
      }
    } else {
      assert Played(bound, turns) == [s];
    }
  }

  /** What an async run comes to, told from its turns; and what it is refused with. */
  lemma RunAsyncEnds(i: Inst, call: Call, bound: Option<nat>, turns: seq<Turn>)
    requires Inv(i) && BoundOk(bound) && (call.func.isStart ==> i.state.NotStarted?)
    ensures RunAsync(i, call, bound, turns).1 ==
            if i.state.Yielded? then Failed(Unsupported)
            else if turns == [] then Dropped
            else if i.state.BoundExpired? then if bound.Some? then Ending(bound, turns) else Panicked
            else if RunRefusal(i, call).Some? then Failed(RunRefusal(i, call).value)
            else Ending(bound, turns)
  {
    hide Inv, Ran;
    if !i.state.Yielded? && turns != [] {
      RefusalsAreExact(i, call, true, bound, turns[0].slice);
      if Accepts(i, call, bound) {
        AsyncLoopTells(i, call, bound, None, turns);
      }
    }
  }

  /** The async start: refused unless it is due, and else an async run of the start function. */
  lemma RunAsyncStartEnds(i: Inst, call: Call, bound: Option<nat>, turns: seq<Turn>)
    requires Inv(i) && BoundOk(bound) && call.func.isStart
    ensures RunAsyncStart(i, call, bound, turns).1 ==
            if !i.state.NotStarted? then Failed(StartAlreadyRun)
            else if turns == [] then Dropped
            else if call.func.ptr == 0 || !call.argsOk then Failed(InvalidArgument)
            else if !call.ctxOk then Failed(ContextError)
            else Ending(bound, turns)
  {
    hide RunAsync, Ending;
    if i.state.NotStarted? {
      RunAsyncEnds(i, call, bound, turns);
    }
  }

  // ---- Every call ----

  function BoundOf(a: Action): Option<nat> {
    if a.DoRunAsync? || a.DoRunAsyncStart? then a.bound else None
  }

  predicate IsAsync(a: Action) { a.DoRunAsync? || a.DoRunAsyncStart? }

  /** The slices a call swaps the guest in for. */
  function SwapsIn(i: Inst, a: Action): seq<Slice> {
    match a
    case DoReset(_) => []
    case DoSetCount(_, _) => []
    case DoRun(ptr, argsOk, ctxOk, s) =>
      if !IsSuspended(i) && Accepts(i, Call(Handle(ptr, false), argsOk, ctxOk), None) then [s] else []
    case DoRunStart(ptr, ctxOk, s) =>
      if i.state.NotStarted? && Accepts(i, Call(Handle(ptr, true), true, ctxOk), None) then [s] else []
    case DoResume(tag, _, s) => if i.state == Yielded(UserTy(tag)) then [s] else []
    case DoRunAsync(ptr, argsOk, ctxOk, bound, turns) =>
      if BoundOk(bound) && !i.state.Yielded? && Accepts(i, Call(Handle(ptr, false), argsOk, ctxOk), bound)
      then Played(bound, turns) else []
    case DoRunAsyncStart(ptr, ctxOk, bound, turns) =>
      if BoundOk(bound) && i.state.NotStarted? && Accepts(i, Call(Handle(ptr, true), true, ctxOk), bound)
      then Played(bound, turns) else []
  }

  lemma RunPerforms(i: Inst, call: Call, s: Slice)
    requires Inv(i) && (call.func.isStart ==> i.state.NotStarted?)
    ensures var t := RunFunc(i, call, false, None, s).0;
            if !IsSuspended(i) && Accepts(i, call, None) then Ran(i, t, false, None, [s])
            else t.log == i.log && t.state == i.state
  {
    if !IsSuspended(i) && Accepts(i, call, None) {
      RunTells(i, call, false, None, s);
    } else {
      RefusalsAreExact(i, call, false, None, s);
      RunRefusals(i, call, false, None, s);
    }
    hide Ran, Told, Lifecycle, Suspended, StartDiscipline, Accounts, Clean, Paired, SwapAndReturn;
  }

  lemma RunAsyncPerforms(i: Inst, call: Call, bound: Option<nat>, turns: seq<Turn>)
    requires Inv(i) && BoundOk(bound) && (call.func.isStart ==> i.state.NotStarted?) && !i.state.Yielded?
    ensures var t, p := RunAsync(i, call, bound, turns).0, Played(bound, turns);
            if Accepts(i, call, bound) && p != [] then Ran(i, t, true, bound, p)
            else t.log == i.log && t.state == i.state
  {
    hide Ran, Inv;
    if Accepts(i, call, bound) {
      if turns != [] {
        AsyncLoopTells(i, call, bound, None, turns);
      }
    }
  }

  /** Every public call: what is reported of each slice it swaps in, the state the last one leaves, and the
      distance from the bound it was given. Without a slice nothing is reported, and only a reset changes
      the state. */
  lemma PerformTells(i: Inst, a: Action)
    requires Inv(i)
    ensures var t, p := Perform(i, a), SwapsIn(i, a);
            if p != [] then Ran(i, t, IsAsync(a), BoundOf(a), p)
            else
              && Outcomes(t.log) == Outcomes(i.log)
              && t.state == if a == DoReset(true) then if i.hasStart then NotStarted else Ready else i.state
  {
    hide Ran, RunFunc, AsyncLoop, SwapAndReturn, Accepts;
    match a
    case DoReset(ok) =>
    case DoSetCount(count, bound) =>
    case DoRun(ptr, argsOk, ctxOk, s) => RunPerforms(i, Call(Handle(ptr, false), argsOk, ctxOk), s);
    case DoRunStart(ptr, ctxOk, s) =>
      if i.state.NotStarted? {
        RunPerforms(i, Call(Handle(ptr, true), true, ctxOk), s);
      }
    case DoResume(tag, payload, s) =>
      if i.state == Yielded(UserTy(tag)) {
        ResumeTells(i, User(tag, payload), false, None, s);
      }
    case DoRunAsync(ptr, argsOk, ctxOk, bound, turns) =>
      if BoundOk(bound) && !i.state.Yielded? {
        RunAsyncPerforms(i, Call(Handle(ptr, false), argsOk, ctxOk), bound, turns);
      }
    case DoRunAsyncStart(ptr, ctxOk, bound, turns) =>
      if BoundOk(bound) && i.state.NotStarted? {
        RunAsyncPerforms(i, Call(Handle(ptr, true), true, ctxOk), bound, turns);
      }
  }

  /** What a list of calls is to report. */
  function Expected(hasStart: bool, actions: seq<Action>): seq<Outcome> {
    if actions == [] then []
    else
      var before, a := actions[..|actions| - 1], actions[|actions| - 1];
      Expected(hasStart, before) + AllTold(IsAsync(a), SwapsIn(After(hasStart, before), a))
  }

  /** Over every sequence of calls the host was told of every slice how it ended, in order. */
  lemma {:induction false} AlwaysTold(hasStart: bool, actions: seq<Action>)
    ensures Outcomes(After(hasStart, actions).log) == Expected(hasStart, actions)
  {
    hide Perform, Inv, SwapsIn, AllTold;
    if actions == [] {
      assert Outcomes(New(hasStart).log) == [];
    } else {
      var before := actions[..|actions| - 1];
      AlwaysTold(hasStart, before);
      AlwaysInv(hasStart, before);
      PerformTells(After(hasStart, before), actions[|actions| - 1]);
    }
  }

  // ---- Faults ----

  /** A fault the host is told of decides what can follow: after a fatal one nothing but a reset has an
      effect; after any other the next run enters the guest and is told of as it ends. */
  lemma FaultDecides(hasStart: bool, actions: seq<Action>, a: Action, fatal: bool, call: Call, s: Slice)
    requires var p := SwapsIn(After(hasStart, actions), a);
             p != [] && p[|p| - 1].ready && p[|p| - 1].end == Faults(fatal) && p[|p| - 1].addrKnown
    requires !call.func.isStart && call.func.ptr != 0 && call.argsOk && call.ctxOk
    ensures var t := After(hasStart, actions + [a]);
            && t.state == State.Faulted(fatal)
            && (NeedsReset(t) <==> fatal)
            && RunFunc(t, call, false, None, s).1 == if fatal then Refused(InvalidArgument) else Told(false, s)
  {
    hide Perform, SwapsIn, Inv, RunFunc, Ran, NeedsReset, Told;
    var i, t := After(hasStart, actions), After(hasStart, actions + [a]);
    assert (actions + [a])[..|actions|] == actions && t == Perform(i, a);
    hide After;
    AlwaysInv(hasStart, actions);
    AlwaysInv(hasStart, actions + [a]);
    PerformTells(i, a);
    LastFault(i, t, IsAsync(a), BoundOf(a), SwapsIn(i, a), fatal);
    AfterFault(t, call, s);
  }

  lemma LastFault(i: Inst, t: Inst, isAsync: bool, bound: Option<nat>, p: seq<Slice>, fatal: bool)
    requires p != [] && Ran(i, t, isAsync, bound, p)
    requires p[|p| - 1].ready && p[|p| - 1].end == Faults(fatal) && p[|p| - 1].addrKnown
    ensures t.state == State.Faulted(fatal)
  {
  }

  lemma AfterFault(t: Inst, call: Call, s: Slice)
    requires Inv(t) && t.state.Faulted?
    requires !call.func.isStart && call.func.ptr != 0 && call.argsOk && call.ctxOk
    ensures NeedsReset(t) <==> t.state.fatal
    ensures RunFunc(t, call, false, None, s).1 == if t.state.fatal then Refused(InvalidArgument) else Told(false, s)
  {
    hide Inv, RunFunc, Told;
    RefusalsAreExact(t, call, false, None, s);
    if !t.state.fatal {
      RunTells(t, call, false, None, s);
    }
  }

  /** A fault whose address cannot be looked up leaves a new instance in transition. */
  lemma FaultLosesInstance()
    ensures var i := After(false, [DoRun(1, true, true, Slice(true, 0, Faults(false), false))]);
            i.state.Transitioning? && Stuck(i.log)
  {
    hide Perform, Inv, Ran, Outcomes, Stuck;
    var a := DoRun(1, true, true, Slice(true, 0, Faults(false), false));
    assert [a][..0] == [] && After(false, []) == New(false);
    AlwaysInv(false, []);
    PerformTells(New(false), a);
    LostFault(New(false), After(false, [a]), false, None, a.slice);
    AlwaysRests(false, [a]);
  }

  lemma LostFault(i: Inst, t: Inst, isAsync: bool, bound: Option<nat>, s: Slice)
    requires Ran(i, t, isAsync, bound, [s]) && s.ready && s.end.Faults? && !s.addrKnown
    ensures t.state.Transitioning?
  {
  }

  // ---- Values that do not fit ----

  /** A guest swapped in without the value it waits for is terminated, and the host is told. */
  lemma MismatchTerminates(i: Inst, isAsync: bool, s: Slice)
    requires MayEnter(i) && s.ready
    requires match i.ctx
             case AwaitVal(ty, optional) => !optional && (i.resumed.None? || TypeOf(i.resumed.value) != ty)
             case AwaitFuture(_, tag) =>
               i.resumed.None? || !i.resumed.value.ResumeVal? || i.resumed.value.tag != tag
             case Gone => true
             case _ => false
    ensures var (t, o) := SwapAndReturn(i, isAsync, s);
            && o == Refused(RuntimeTerminated) && t.state.Terminated? && t.ctx.Gone?
            && t.counter == i.counter && t.kill != i.kill && Deliveries(t.log) == Deliveries(i.log)
            && t.resumed == if i.ctx.AwaitFuture? && i.resumed.Some? && i.resumed.value.ResumeVal? then None
                            else i.resumed
  {
  }

  /** A guest that only tries to take a value goes on without one, and leaves what it cannot take. */
  lemma OptionalGoesOn(i: Inst, isAsync: bool, s: Slice)
    requires MayEnter(i) && s.ready && i.ctx.AwaitVal? && i.ctx.optional
    requires i.resumed.None? || TypeOf(i.resumed.value) != i.ctx.ty
    ensures var (t, o) := SwapAndReturn(i, isAsync, s);
            && o == Told(isAsync, s) && t.state == StateAfter(i.entrypoint.value.isStart, isAsync, s)
            && t.resumed == i.resumed && Deliveries(t.log) == Deliveries(i.log)
  {
    var r := i.(state := Running(isAsync));
    var t := GuestRuns(r, isAsync, s);
    GoesOnWithout(r, isAsync, s);
    TakeResultTells(t, isAsync, s);
    TakeResultDelivers(t, s);
    hide GuestRuns, TakeResult, Told;
  }

  lemma GoesOnWithout(i: Inst, isAsync: bool, s: Slice)
    requires i.state == Running(isAsync) && s.ready && i.ctx.AwaitVal? && i.ctx.optional
    requires i.resumed.None? || TypeOf(i.resumed.value) != i.ctx.ty
    ensures var t := GuestRuns(i, isAsync, s);
            && t.state == EndState(s.end, isAsync)
            && t.resumed == i.resumed && Deliveries(t.log) == Deliveries(i.log)
  {
    ConcludeDelivers(i, isAsync, s);
    hide Deliveries;
    assert Awaken(i) == i;
  }

  /** An async run with a bound that does not fit an `i64` panics: it has set the entry point exactly if any
      other bound would have let it get past its arguments, and has done nothing else. */
  lemma OverboundRuns(i: Inst, ptr: nat, argsOk: bool, ctxOk: bool, bound: nat, turns: seq<Turn>)
    requires Inv(i) && bound > MAX
    ensures var t := Perform(i, DoRunAsync(ptr, argsOk, ctxOk, Some(bound), turns));
            var refusal := RunRefusal(i, Call(Handle(ptr, false), argsOk, ctxOk));
            t == if refusal.None? || refusal == Some(ContextError) then i.(entrypoint := Some(Handle(ptr, false)))
                 else i
  {
    hide Suspended, StartDiscipline, Accounts, Clean, Paired;
  }
}
