/** Which values reach which guests: told from what the slices of an async run do and what the futures they
    block on come to, and from the values a user resumes with, and compared with what the guests take. */
module InstanceFutures {
  import opened Basics
  import opened Int64
  import opened InstanceState
  import opened InstanceHistory
  import opened InstanceRuns
  import opened InstanceEnds

  /** Everything guests have taken: users' values, and outputs with the futures that produced them. */
  function Deliveries(h: History): seq<Value> {
    match h
    case Nothing => []
    case Then(b, e) => Deliveries(b) + if e.Delivered? then [e.val] else []
  }

  /** The future the guest blocks on in the first turn, with its output, if the guest is resumed after it;
      then the same for the turns that follow. */
  function Promised(bound: Option<nat>, turns: seq<Turn>): seq<Value> {
    if turns == [] || !turns[0].slice.ready then []
    else match turns[0].slice.end
      case Expires => if bound.Some? then Promised(bound, turns[1..]) else []
      case Blocks(id, tag) =>
        if turns[0].output.None? || |turns| == 1 || !turns[1].slice.ready then []
        else [ResumeVal(id, tag, turns[0].output.value)] + Promised(bound, turns[1..])
      case _ => []
  }

  /** Whether a run gets as far as the guest. */
  predicate Accepts(i: Inst, call: Call, bound: Option<nat>) {
    || i.state.Yielded?
    || (i.state.BoundExpired? && bound.Some?)
    || ((i.state.Ready? || (i.state.NotStarted? && call.func.isStart) || (i.state.Faulted? && !i.state.fatal))
        && call.func.ptr != 0 && call.argsOk && call.ctxOk)
  }

  /** What the guest takes when it is resumed for a slice. */
  function Taken(i: Inst, resumeVal: Option<Value>, s: Slice): seq<Value> {
    if i.state.Yielded? && s.ready && resumeVal.Some? then [resumeVal.value] else []
  }

  // ---- One slice ----

  lemma AwakenDelivers(i: Inst)
    requires Enterable(i)
    ensures Deliveries(Awaken(i).log) ==
            Deliveries(i.log) + if Awaits(i.ctx) then [i.resumed.value] else []
  {
  }

  lemma SwapDelivers(i: Inst, isAsync: bool, s: Slice)
    requires MayEnter(i) && Enterable(i) && Books(i)
    ensures Deliveries(SwapAndReturn(i, isAsync, s).0.log) ==
            Deliveries(i.log) + if s.ready && Awaits(i.ctx) then [i.resumed.value] else []
  {
    if s.ready {
      var r := i.(state := Running(isAsync));
      Awakens(r);
      AwakenDelivers(r);
      ConcludeDelivers(Awaken(r), isAsync, s);
      TakeResultDelivers(GuestRuns(r, isAsync, s), s);
    }
    hide Enterable, Books, Awaken, Conclude, Count, TakeResult;
  }

  lemma ConcludeDelivers(i: Inst, isAsync: bool, s: Slice)
    ensures Deliveries(Conclude(Count(i, s.counted), isAsync, s.end).log) == Deliveries(i.log)
  {
    assert Deliveries(Count(i, s.counted).log) == Deliveries(i.log);
  }

  lemma TakeResultDelivers(i: Inst, s: Slice)
    ensures Deliveries(TakeResult(i, s).0.log) == Deliveries(i.log)
  {
  }

  // ---- One turn ----

  /** The instance a turn swaps in. */
  function Prepared(i: Inst, call: Call, bound: Option<nat>, resumeVal: Option<Value>): Inst
    requires BoundOk(bound)
  {
    if i.state.Yielded? then SetBound(i.(resumed := resumeVal), bound)
    else if i.state.BoundExpired? then SetBound(i, bound)
    else SetBound(i.(entrypoint := Some(call.func)), bound).(ctx := Fresh(call.func))
  }

  lemma PreparedIsFine(i: Inst, call: Call, bound: Option<nat>, resumeVal: Option<Value>)
    requires AtHead(i, call, resumeVal) && BoundOk(bound) && Accepts(i, call, bound)
    ensures var c := Prepared(i, call, bound, resumeVal);
            && MayEnter(c) && Enterable(c) && Books(c) && c.log == i.log
            && (Awaits(c.ctx) <==> i.state.Yielded?) && (i.state.Yielded? ==> c.resumed == resumeVal)
  {
    BoundKeepsBooks(i.(entrypoint := Some(call.func)), bound);
    BoundKeepsBooks(i.(resumed := resumeVal), bound);
    BoundKeepsBooks(i, bound);
  }

  lemma TurnIsSwap(i: Inst, call: Call, bound: Option<nat>, resumeVal: Option<Value>, s: Slice)
    requires AtHead(i, call, resumeVal) && BoundOk(bound) && Accepts(i, call, bound)
    ensures OneTurn(i, call, bound, resumeVal, s) == SwapAndReturn(Prepared(i, call, bound, resumeVal), true, s)
  {
    hide SwapAndReturn, SetBound;
  }

  /** One accepted turn: what the guest takes, how the host is told the slice ended, and that it can go on. */
  lemma TurnDelivers(i: Inst, call: Call, bound: Option<nat>, resumeVal: Option<Value>, s: Slice)
    requires AtHead(i, call, resumeVal) && BoundOk(bound) && Accepts(i, call, bound)
    ensures var (t, o) := OneTurn(i, call, bound, resumeVal, s);
            && Deliveries(t.log) == Deliveries(i.log) + Taken(i, resumeVal, s)
            && Inv(t) && Follows(t, o)
            && o == Told(true, s)
  {
    hide Inv, Fits, SwapAndReturn, OneTurn, Prepared, Enterable, Books, Deliveries, Told, Tells;
    var c := Prepared(i, call, bound, resumeVal);
    PreparedIsFine(i, call, bound, resumeVal);
    TurnIsSwap(i, call, bound, resumeVal, s);
    SwapDelivers(c, true, s);
    SwapTells(c, true, s);
    SwapKeeps(c, true, s);
  }

  lemma RefusedDeliversNothing(i: Inst, call: Call, bound: Option<nat>, turns: seq<Turn>)
    requires AtHead(i, call, None) && BoundOk(bound) && !Accepts(i, call, bound)
    ensures AsyncLoop(i, call, bound, None, turns).0.log == i.log
  {
  }

  // ---- Whole runs ----

  lemma {:induction false} AsyncLoopDelivers(
      i: Inst, call: Call, bound: Option<nat>, resumeVal: Option<Value>, turns: seq<Turn>)
    requires AtHead(i, call, resumeVal) && BoundOk(bound) && Accepts(i, call, bound)
    ensures Deliveries(AsyncLoop(i, call, bound, resumeVal, turns).0.log) == Deliveries(i.log) +
            if turns == [] then [] else Taken(i, resumeVal, turns[0].slice) + Promised(bound, turns)
    decreases |turns|
  {
    hide Inv, Fits, OneTurn, Deliveries;
    if turns != [] {
      var s := turns[0].slice;
      TurnDelivers(i, call, bound, resumeVal, s);
      var (t, o) := OneTurn(i, call, bound, resumeVal, s);
      if o.Expired? {
        if bound.Some? {
          AsyncLoopDelivers(t, call, bound, if i.state.Yielded? then None else resumeVal, turns[1..]);
        }
      } else if o.YieldedVal? && o.val.Future? && turns[0].output.Some? {
        FutureFits(t, o, turns[0].output.value);
        AsyncLoopDelivers(t, call, bound, Some(ResumeVal(o.val.id, o.val.tag, turns[0].output.value)), turns[1..]);
      }
    }
  }

  /** An async run delivers to its guest exactly what its turns promise: the output of every future the guest
      blocked on, in order, once, as long as the guest is resumed after it. */
  lemma RunAsyncDelivers(i: Inst, call: Call, bound: Option<nat>, turns: seq<Turn>)
    requires Inv(i) && BoundOk(bound) && (call.func.isStart ==> i.state.NotStarted? || IsSuspended(i))
    ensures Deliveries(RunAsync(i, call, bound, turns).0.log) ==
            Deliveries(i.log) + if !i.state.Yielded? && Accepts(i, call, bound) then Promised(bound, turns) else []
  {
    if !i.state.Yielded? {
      if Accepts(i, call, bound) {
        AsyncLoopDelivers(i, call, bound, None, turns);
      } else {
        RefusedDeliversNothing(i, call, bound, turns);
      }
    }
  }

  /** What a call delivers. */
  function Delivers(i: Inst, a: Action): seq<Value> {
    match a
    case DoResume(tag, payload, s) => if i.state == Yielded(UserTy(tag)) && s.ready then [User(tag, payload)] else []
    case DoRunAsync(ptr, argsOk, ctxOk, bound, turns) =>
      if BoundOk(bound) && !i.state.Yielded? && Accepts(i, Call(Handle(ptr, false), argsOk, ctxOk), bound)
      then Promised(bound, turns) else []
    case DoRunAsyncStart(ptr, ctxOk, bound, turns) =>
      if BoundOk(bound) && i.state.NotStarted? && i.hasStart && Accepts(i, Call(Handle(ptr, true), true, ctxOk), bound)
      then Promised(bound, turns) else []
    case _ => []
  }

  lemma RunDeliversNothing(i: Inst, call: Call, s: Slice)
    requires Inv(i) && (call.func.isStart ==> i.state.NotStarted?)
    ensures Deliveries(RunFunc(i, call, false, None, s).0.log) == Deliveries(i.log)
  {
    if !IsSuspended(i) && Accepts(i, call, None) {
      PreparedIsFine(i, call, None, None);
      SwapDelivers(Prepared(i, call, None, None), false, s);
    }
    hide Inv, Deliveries, SwapAndReturn;
  }

  /** A guest woken by a user takes exactly the value given, if its type is the one expected. */
  lemma ResumeDelivers(i: Inst, tag: nat, payload: int, s: Slice)
    requires Inv(i)
    ensures Deliveries(ResumeWithVal(i, User(tag, payload), false, None, s).0.log) ==
            Deliveries(i.log) + if i.state == Yielded(UserTy(tag)) && s.ready then [User(tag, payload)] else []
  {
    if i.state.Yielded? && i.state.expecting == UserTy(tag) {
      var c := i.(resumed := Some(User(tag, payload)));
      BoundKeepsBooks(c, None);
      SwapDelivers(SetBound(c, None), false, s);
    }
    hide Deliveries, SwapAndReturn;
  }

  /** Of all calls only resumes and async runs deliver: the value given, and exactly the outputs promised by
      the run's own turns. */
  lemma PerformDelivers(i: Inst, a: Action)
    requires Inv(i)
    ensures Deliveries(Perform(i, a).log) == Deliveries(i.log) + Delivers(i, a)
  {
    match a
    case DoReset(ok) =>
    case DoRun(ptr, argsOk, ctxOk, s) => RunDeliversNothing(i, Call(Handle(ptr, false), argsOk, ctxOk), s);
    case DoRunStart(ptr, ctxOk, s) =>
      if i.hasStart && i.state.NotStarted? {
        RunDeliversNothing(i, Call(Handle(ptr, true), true, ctxOk), s);
      }
    case DoResume(tag, payload, s) => ResumeDelivers(i, tag, payload, s);
    case DoSetCount(count, bound) =>
    case DoRunAsync(ptr, argsOk, ctxOk, bound, turns) =>
      if BoundOk(bound) {
        RunAsyncDelivers(i, Call(Handle(ptr, false), argsOk, ctxOk), bound, turns);
      }
    case DoRunAsyncStart(ptr, ctxOk, bound, turns) =>
      if BoundOk(bound) && i.hasStart && i.state.NotStarted? {
        RunAsyncDelivers(i, Call(Handle(ptr, true), true, ctxOk), bound, turns);
      }
  }

  /** Everything promised by a list of calls. */
  function AllDelivers(hasStart: bool, actions: seq<Action>): seq<Value> {
    if actions == [] then []
    else
      var before := actions[..|actions| - 1];
      AllDelivers(hasStart, before) + Delivers(After(hasStart, before), actions[|actions| - 1])
  }

  /** Over every run guests have taken exactly the values they were resumed with and the outputs promised
      to them, in order. */
  lemma {:induction false} AlwaysDelivers(hasStart: bool, actions: seq<Action>)
    ensures Deliveries(After(hasStart, actions).log) == AllDelivers(hasStart, actions)
  {
    hide Perform, Inv, Delivers;
    if actions == [] {
      assert Deliveries(New(hasStart).log) == [];
    } else {
      var before := actions[..|actions| - 1];
      AlwaysDelivers(hasStart, before);
      AlwaysInv(hasStart, before);
      PerformDelivers(After(hasStart, before), actions[|actions| - 1]);
    }
  }
}
