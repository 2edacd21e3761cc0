/** Every run of the public interface, from a new instance on. */
module InstanceRuns {
  import opened Basics
  import opened Int64
  import opened InstanceState
  import opened InstanceHistory

  // ---- The async loop ----

  /** At the loop head a guest that yielded has its future's output at hand. */
  predicate AtHead(i: Inst, call: Call, resumeVal: Option<Value>) {
    && Inv(i)
    && (i.state.Yielded? ==> resumeVal.Some? && resumeVal.value.ResumeVal? && Fits(i, resumeVal.value))
    && (call.func.isStart ==> i.state.NotStarted? || i.state.Yielded? || i.state.BoundExpired?)
  }

  /** How often any function was entered. */
  function Entries(h: History): nat {
    match h
    case Nothing => 0
    case Then(b, e) => Entries(b) + if e.Entered? then 1 else 0
  }

  lemma {:induction false} AsyncLoopKeeps(
      i: Inst, call: Call, bound: Option<nat>, resumeVal: Option<Value>, turns: seq<Turn>)
    requires AtHead(i, call, resumeVal) && BoundOk(bound)
    ensures var (t, o) := AsyncLoop(i, call, bound, resumeVal, turns);
            Inv(t) && (o.Panicked? ==> bound.None? && t.state.BoundExpired?)
    decreases |turns|
  {
    hide Inv, Fits, RunFunc, ResumeWithVal, ResumeBounded;
    if turns != [] && !(i.state.BoundExpired? && bound.None?) {
      var s := turns[0].slice;
      if i.state.Yielded? {
        ResumeWithValKeeps(i, resumeVal.value, true, bound, s);
        AsyncTurnKeeps(ResumeWithVal(i, resumeVal.value, true, bound, s), call, bound, None, turns);
      } else if i.state.BoundExpired? {
        ResumeBoundedKeeps(i, bound.value, s);
        AsyncTurnKeeps(ResumeBounded(i, bound.value, s), call, bound, resumeVal, turns);
      } else {
        RunFuncKeeps(i, call, true, bound, s);
        AsyncTurnKeeps(RunFunc(i, call, true, bound, s), call, bound, resumeVal, turns);
      }
    }
  }

  lemma AsyncTurnKeeps(r: (Inst, Outcome), call: Call, bound: Option<nat>, kept: Option<Value>, turns: seq<Turn>)
    requires Inv(r.0) && Follows(r.0, r.1) && BoundOk(bound) && turns != []
    ensures r.1.Expired? ==>
              var (t, o) := AsyncLoop(r.0, call, bound, kept, turns[1..]);
              Inv(t) && (o.Panicked? ==> bound.None? && t.state.BoundExpired?)
    ensures r.1.YieldedVal? && r.1.val.Future? && turns[0].output.Some? ==>
              var val := Some(ResumeVal(r.1.val.id, r.1.val.tag, turns[0].output.value));
              var (t, o) := AsyncLoop(r.0, call, bound, val, turns[1..]);
              Inv(t) && (o.Panicked? ==> bound.None? && t.state.BoundExpired?)
    decreases |turns|, 0
  {
    if r.1.Expired? {
      AsyncLoopKeeps(r.0, call, bound, kept, turns[1..]);
    } else if r.1.YieldedVal? && r.1.val.Future? && turns[0].output.Some? {
      AsyncLoopKeeps(r.0, call, bound, Some(ResumeVal(r.1.val.id, r.1.val.tag, turns[0].output.value)), turns[1..]);
    }
  }

  /** The function entered last. */
  function LastEntered(h: History): Option<Handle> {
    match h
    case Nothing => None
    case Then(b, e) => if e.Entered? then Some(e.func) else LastEntered(b)
  }

  /** What a step adds to the functions entered: nothing, or one entry of `func`. */
  predicate Enters(h: History, h': History, func: Handle, once: bool) {
    if once then Entries(h') == Entries(h) + 1 && LastEntered(h') == Some(func)
    else Entries(h') == Entries(h) && LastEntered(h') == LastEntered(h)
  }

  lemma TakeResultNotes(i: Inst, s: Slice)
    ensures TakeResult(i, s).0.log == i.log || TakeResult(i, s).0.log == Then(i.log, Impossible)
  {
  }

  lemma TakeResultEnters(i: Inst, s: Slice)
    ensures Enters(i.log, TakeResult(i, s).0.log, Handle(0, false), false)
  {
    TakeResultNotes(i, s);
    hide TakeResult;
  }

  lemma ConcludeEnters(i: Inst, isAsync: bool, s: Slice)
    ensures Enters(i.log, Conclude(Count(i, s.counted), isAsync, s.end).log, Handle(0, false), false)
  {
  }

  lemma AwakenEnters(i: Inst)
    ensures Enters(i.log, Awaken(i).log, if i.ctx.Fresh? then i.ctx.func else Handle(0, false), i.ctx.Fresh?)
  {
  }

  lemma SliceEnters(i: Inst, isAsync: bool, s: Slice)
    requires MayEnter(i)
    ensures var (t, o) := OneSlice(i, isAsync, s);
            var once := s.ready && i.ctx.Fresh? && !s.end.Cancelled?;
            && Enters(i.log, t.log, if i.ctx.Fresh? then i.ctx.func else Handle(0, false), once)
            && (i.ctx.Fresh? && !once ==> o.Refused?)
  {
    if s.ready {
      var r := i.(state := Running(isAsync));
      AwakenEnters(r);
      ConcludeEnters(Awaken(r), isAsync, s);
      TakeResultEnters(GuestRuns(r, isAsync, s), s);
      hide Entries, LastEntered, Awaken, Conclude, Count;
    }
  }

  lemma SwapEnters(i: Inst, isAsync: bool, s: Slice)
    requires MayEnter(i)
    ensures var (t, o) := SwapAndReturn(i, isAsync, s);
            var once := s.ready && i.ctx.Fresh? && !s.end.Cancelled?;
            && Enters(i.log, t.log, if i.ctx.Fresh? then i.ctx.func else Handle(0, false), once)
            && (i.ctx.Fresh? && !once ==> o.Refused?)
  {
    SliceEnters(i, isAsync, s);
    hide OneSlice;
  }

  predicate IsSuspended(i: Inst) { i.state.Yielded? || i.state.BoundExpired? }

  /** Unless the instance was suspended to begin with, the loop enters `func` at most once, and
      exactly once if it completes. A suspended guest is resumed instead, and nothing is entered. */
  lemma {:induction false} AsyncLoopEntersOnce(
      i: Inst, call: Call, bound: Option<nat>, resumeVal: Option<Value>, turns: seq<Turn>)
    requires AtHead(i, call, resumeVal) && BoundOk(bound)
    ensures var (t, o) := AsyncLoop(i, call, bound, resumeVal, turns);
            && (IsSuspended(i) ==> Enters(i.log, t.log, call.func, false))
            && (!IsSuspended(i) ==>
                || Enters(i.log, t.log, call.func, true)
                || (Enters(i.log, t.log, call.func, false) && !o.Complete?))
    decreases |turns|
  {
    hide Inv, Fits, SwapAndReturn, SetBound;
    if turns != [] && !(i.state.BoundExpired? && bound.None?) {
      var s := turns[0].slice;
      if i.state.Yielded? {
        ResumeWithValKeeps(i, resumeVal.value, true, bound, s);
        ResumeEnters(i, resumeVal.value, bound, s);
        RestEntersNothing(ResumeWithVal(i, resumeVal.value, true, bound, s), call, bound, None, turns);
      } else if i.state.BoundExpired? {
        ResumeBoundedKeeps(i, bound.value, s);
        ResumeBoundedEnters(i, bound.value, s);
        RestEntersNothing(ResumeBounded(i, bound.value, s), call, bound, resumeVal, turns);
      } else {
        RunFuncKeeps(i, call, true, bound, s);
        RunFuncEnters(i, call, bound, s);
        RestEntersNothing(RunFunc(i, call, true, bound, s), call, bound, resumeVal, turns);
      }
    }
  }

  lemma ResumeEnters(i: Inst, val: Value, bound: Option<nat>, s: Slice)
    requires Inv(i) && i.state.Yielded? && BoundOk(bound)
    ensures Enters(i.log, ResumeWithVal(i, val, true, bound, s).0.log, Handle(0, false), false)
  {
    if i.state.expecting == TypeOf(val) {
      SwapEnters(SetBound(i.(resumed := Some(val)), bound), true, s);
    }
  }

  lemma ResumeBoundedEnters(i: Inst, bound: nat, s: Slice)
    requires Inv(i) && i.state.BoundExpired? && bound <= MAX
    ensures Enters(i.log, ResumeBounded(i, bound, s).0.log, Handle(0, false), false)
  {
    SwapEnters(SetBound(i, Some(bound)), true, s);
  }

  lemma RunFuncEnters(i: Inst, call: Call, bound: Option<nat>, s: Slice)
    requires BoundOk(bound)
    ensures var (t, o) := RunFunc(i, call, true, bound, s);
            Enters(i.log, t.log, call.func, true) || (Enters(i.log, t.log, call.func, false) && o.Refused?)
  {
    var c := SetBound(i.(entrypoint := Some(call.func)), bound).(ctx := Fresh(call.func));
    if MayEnter(c) {
      SwapEnters(c, true, s);
    }
  }

  lemma RestEntersNothing(r: (Inst, Outcome), call: Call, bound: Option<nat>, kept: Option<Value>, turns: seq<Turn>)
    requires Inv(r.0) && Follows(r.0, r.1) && BoundOk(bound) && turns != []
    ensures r.1.Expired? ==>
              Enters(r.0.log, AsyncLoop(r.0, call, bound, kept, turns[1..]).0.log, call.func, false)
    ensures r.1.YieldedVal? && r.1.val.Future? && turns[0].output.Some? ==>
              var val := Some(ResumeVal(r.1.val.id, r.1.val.tag, turns[0].output.value));
              Enters(r.0.log, AsyncLoop(r.0, call, bound, val, turns[1..]).0.log, call.func, false)
    decreases |turns|, 0
  {
    if r.1.Expired? {
      AsyncLoopEntersOnce(r.0, call, bound, kept, turns[1..]);
    } else if r.1.YieldedVal? && r.1.val.Future? && turns[0].output.Some? {
      var val := Some(ResumeVal(r.1.val.id, r.1.val.tag, turns[0].output.value));
      AsyncLoopEntersOnce(r.0, call, bound, val, turns[1..]);
    }
  }

  /** An async run of an instance that rests unsuspended enters exactly the function it was given, once,
      if it completes; one that finds an expired instance completes without ever entering it. */
  lemma RunAsyncEnters(i: Inst, call: Call, bound: Option<nat>, turns: seq<Turn>)
    requires Inv(i) && BoundOk(bound) && (call.func.isStart ==> i.state.NotStarted?)
    ensures var (t, o) := RunAsync(i, call, bound, turns);
            o.Complete? ==> (Enters(i.log, t.log, call.func, true) <==> !i.state.BoundExpired?)
  {
    if !i.state.Yielded? {
      AsyncLoopEntersOnce(i, call, bound, None, turns);
    }
  }

  // ---- Without a bound ----

  /** Compiled code gives up a slice only when its counter is no longer negative. */
  predicate Honest(bound: Option<nat>, s: Slice)
    requires BoundOk(bound)
  {
    s.end.Expires? ==> Wrap(s.counted - Delta(bound)) >= 0
  }

  lemma UnboundedDoesNotExpire(s: Slice)
    requires Honest(None, s) && s.counted < MAX
    ensures !s.end.Expires?
  {
  }

  lemma ExpiresOnlyAtTheEnd(i: Inst, isAsync: bool, s: Slice)
    requires !s.end.Expires?
    ensures !SwapAndReturn(i, isAsync, s).1.Expired?
  {
  }

  lemma {:induction false} UnexpiredLoopNeverPanics(
      i: Inst, call: Call, bound: Option<nat>, resumeVal: Option<Value>, turns: seq<Turn>)
    requires AtHead(i, call, resumeVal) && BoundOk(bound) && !i.state.BoundExpired?
    requires forall k | 0 <= k < |turns| :: !turns[k].slice.end.Expires?
    ensures !AsyncLoop(i, call, bound, resumeVal, turns).1.Panicked?
    decreases |turns|
  {
    hide Inv, Fits, SwapAndReturn, SetBound;
    if turns != [] {
      var s := turns[0].slice;
      if i.state.Yielded? {
        ResumeWithValKeeps(i, resumeVal.value, true, bound, s);
        ExpiresOnlyAtTheEnd(SetBound(i.(resumed := Some(resumeVal.value)), bound), true, s);
        var (t, o) := ResumeWithVal(i, resumeVal.value, true, bound, s);
        if o.YieldedVal? && o.val.Future? && turns[0].output.Some? {
          FutureFits(t, o, turns[0].output.value);
          var val := Some(ResumeVal(o.val.id, o.val.tag, turns[0].output.value));
          UnexpiredLoopNeverPanics(t, call, bound, val, turns[1..]);
        }
      } else {
        RunFuncKeeps(i, call, true, bound, s);
        ExpiresOnlyAtTheEnd(SetBound(i.(entrypoint := Some(call.func)), bound).(ctx := Fresh(call.func)), true, s);
        var (t, o) := RunFunc(i, call, true, bound, s);
        if o.YieldedVal? && o.val.Future? && turns[0].output.Some? {
          FutureFits(t, o, turns[0].output.value);
          var val := Some(ResumeVal(o.val.id, o.val.tag, turns[0].output.value));
          UnexpiredLoopNeverPanics(t, call, bound, val, turns[1..]);
        }
      }
    }
  }

  lemma FutureFits(t: Inst, o: Outcome, output: int)
    requires Follows(t, o) && o.YieldedVal? && o.val.Future?
    ensures Fits(t, ResumeVal(o.val.id, o.val.tag, output)) && t.state.Yielded?
  {
  }

  /** The loop panics exactly on an expired guest it has no bound for: never with a bound, never when
      fewer than 2^63 - 1 operators are counted per slice, and always when it is handed an expired guest. */
  lemma RunAsyncPanics(i: Inst, call: Call, bound: Option<nat>, turns: seq<Turn>)
    requires Inv(i) && BoundOk(bound) && (call.func.isStart ==> i.state.NotStarted?)
    requires bound.None? ==> forall k | 0 <= k < |turns| :: Honest(None, turns[k].slice) && turns[k].slice.counted < MAX
    ensures RunAsync(i, call, bound, turns).1.Panicked? <==> i.state.BoundExpired? && bound.None? && turns != []
  {
    if !i.state.Yielded? {
      AsyncLoopKeeps(i, call, bound, None, turns);
      if !i.state.BoundExpired? && bound.None? {
        forall k | 0 <= k < |turns|
          ensures !turns[k].slice.end.Expires?
        {
          UnboundedDoesNotExpire(turns[k].slice);
        }
        UnexpiredLoopNeverPanics(i, call, bound, None, turns);
      }
    }
  }

  // ---- Runs of the public interface ----

  /** A call of the public interface. Only the module's start section gives a start handle, and a user
      can only make user values. */
  datatype Action =
    | DoReset(heapOk: bool)
    | DoRun(ptr: nat, argsOk: bool, ctxOk: bool, slice: Slice)
    | DoRunStart(ptr: nat, ctxOk: bool, slice: Slice)
    | DoResume(tag: nat, payload: int, slice: Slice)
    | DoSetCount(count: nat, countBound: nat)
    | DoRunAsync(ptr: nat, argsOk: bool, ctxOk: bool, bound: Option<nat>, turns: seq<Turn>)
    | DoRunAsyncStart(ptr: nat, ctxOk: bool, bound: Option<nat>, turns: seq<Turn>)

  /** An async run whose bound does not fit an `i64` panics, once the entry point is set if it gets that far. */
  function Overbound(i: Inst, call: Call): Inst {
    if (i.state.Ready? || (i.state.NotStarted? && call.func.isStart) || (i.state.Faulted? && !i.state.fatal))
       && call.func.ptr != 0 && call.argsOk
    then i.(entrypoint := Some(call.func)) else i
  }

  function Perform(i: Inst, a: Action): Inst {
    match a
    case DoReset(ok) => Reset(i, ok).0
    case DoRun(ptr, argsOk, ctxOk, s) => RunFunc(i, Call(Handle(ptr, false), argsOk, ctxOk), false, None, s).0
    case DoRunStart(ptr, ctxOk, s) => RunStart(i, Call(Handle(ptr, true), true, ctxOk), s).0
    case DoResume(tag, payload, s) => ResumeWithVal(i, User(tag, payload), false, None, s).0
    case DoSetCount(count, bound) => if count <= MAX && bound <= MAX then SetCount(i, count, bound) else i
    case DoRunAsync(ptr, argsOk, ctxOk, bound, turns) =>
      var call := Call(Handle(ptr, false), argsOk, ctxOk);
      if BoundOk(bound) then RunAsync(i, call, bound, turns).0 else Overbound(i, call)
    case DoRunAsyncStart(ptr, ctxOk, bound, turns) =>
      var call := Call(Handle(ptr, true), true, ctxOk);
      if BoundOk(bound) then RunAsyncStart(i, call, bound, turns).0
      else if i.state.NotStarted? && i.hasStart then Overbound(i, call) else i
  }

  lemma PerformKeeps(i: Inst, a: Action)
    requires Inv(i)
    ensures Inv(Perform(i, a))
  {
    match a
    case DoReset(ok) => ResetKeeps(i, ok);
    case DoRun(ptr, argsOk, ctxOk, s) => RunFuncKeeps(i, Call(Handle(ptr, false), argsOk, ctxOk), false, None, s);
    case DoRunStart(ptr, ctxOk, s) =>
      if i.state.NotStarted? {
        RunFuncKeeps(i, Call(Handle(ptr, true), true, ctxOk), false, None, s);
      }
    case DoResume(tag, payload, s) => ResumeWithValKeeps(i, User(tag, payload), false, None, s);
    case DoSetCount(count, bound) =>
      if count <= MAX && bound <= MAX {
        SetCountKeeps(i, count, bound);
      }
    case DoRunAsync(ptr, argsOk, ctxOk, bound, turns) =>
      if BoundOk(bound) && !i.state.Yielded? {
        AsyncLoopKeeps(i, Call(Handle(ptr, false), argsOk, ctxOk), bound, None, turns);
      }
    case DoRunAsyncStart(ptr, ctxOk, bound, turns) =>
      if BoundOk(bound) && i.state.NotStarted? {
        AsyncLoopKeeps(i, Call(Handle(ptr, true), true, ctxOk), bound, None, turns);
      }
  }

  /** The instance after a list of calls. */
  function After(hasStart: bool, actions: seq<Action>): Inst {
    if actions == [] then New(hasStart)
    else Perform(After(hasStart, actions[..|actions| - 1]), actions[|actions| - 1])
  }

  lemma {:induction false} AlwaysInv(hasStart: bool, actions: seq<Action>)
    ensures Inv(After(hasStart, actions))
  {
    hide Perform, Inv;
    if actions == [] {
      NewIsFine(hasStart);
    } else {
      AlwaysInv(hasStart, actions[..|actions| - 1]);
      PerformKeeps(After(hasStart, actions[..|actions| - 1]), actions[|actions| - 1]);
    }
  }

  lemma NewIsFine(hasStart: bool)
    ensures Inv(New(hasStart))
  {
  }

  /** Between calls the instance is in a resting state, unless a fault address was lost since the last
      reset: then, and only then, it is left `Transitioning`. */
  lemma AlwaysRests(hasStart: bool, actions: seq<Action>)
    ensures var i := After(hasStart, actions);
            (Resting(i.state) <==> !Stuck(i.log)) && (i.state.Transitioning? <==> Stuck(i.log))
  {
    AlwaysInv(hasStart, actions);
  }

  /** No assertion on entering the guest fails, no state is impossible, and no resumed guest ever finds a
      value of the wrong type, a broken promise or no context to go on from. What each future comes to
      goes once, to the guest that blocked on it. */
  lemma NeverMismatched(hasStart: bool, actions: seq<Action>)
    ensures Clean(After(hasStart, actions).log) && Paired(After(hasStart, actions).log)
  {
    AlwaysInv(hasStart, actions);
  }

  /** The instruction count is what the guest has counted in all its slices since the count was last set,
      on top of that, whatever the bounds. */
  lemma CountIsTally(hasStart: bool, actions: seq<Action>)
    ensures var i := After(hasStart, actions); i.counter.Total() == Wrap(Tally(i.log))
  {
    AlwaysInv(hasStart, actions);
  }

  lemma {:induction false} SameModule(hasStart: bool, actions: seq<Action>)
    ensures After(hasStart, actions).hasStart == hasStart
  {
    hide Perform;
    if actions != [] {
      SameModule(hasStart, actions[..|actions| - 1]);
      PerformExtends(After(hasStart, actions[..|actions| - 1]), actions[|actions| - 1]);
    }
  }

  /** With a start function nothing is entered before it, and since the last reset it was entered once more
      than it was given up half-way because setup failed, or as often while it is due. So once it has run, it
      was entered at most once exactly if it was never given up. Without one it is never entered. */
  lemma StartsOnce(hasStart: bool, actions: seq<Action>)
    ensures var i := After(hasStart, actions);
            && (hasStart ==> StartFirst(i.log))
            && (!hasStart ==> StartEntries(i.log) == 0)
            && Abandoned(i.log) <= StartEntries(i.log) <= Abandoned(i.log) + 1
            && (hasStart && i.state.NotStarted? ==> StartEntries(i.log) == Abandoned(i.log))
            && (hasStart && Started(i.state) ==> StartEntries(i.log) == Abandoned(i.log) + 1)
            && (hasStart && Started(i.state) ==> (StartEntries(i.log) <= 1 <==> Abandoned(i.log) == 0))
  {
    AlwaysInv(hasStart, actions);
    SameModule(hasStart, actions);
  }

  // A start function that yields at once, and a slice whose setup fails.
  const YIELDS: Slice := Slice(true, 0, Yields(0, 0, 0, false), true)
  const FAILS: Slice := Slice(false, 0, Returns, true)

  lemma StartYields(i: Inst)
    requires i.hasStart && i.state.NotStarted?
    ensures var t := Perform(i, DoRunStart(1, true, YIELDS));
            && t.hasStart && t.state == Yielded(UserTy(0)) && t.entrypoint == Some(Handle(1, true))
            && !t.ctx.Fresh? && StartEntries(t.log) == StartEntries(i.log) + 1
  {
    var c := SetBound(i.(entrypoint := Some(Handle(1, true))), None).(ctx := Fresh(Handle(1, true)));
    var t := OneSlice(c, false, YIELDS).0;
    assert StartEntries(t.log) == StartEntries(i.log) + 1;
    assert Perform(i, DoRunStart(1, true, YIELDS)) == t.Note(Reported(YieldedVal(User(0, 0))));
  }

  lemma ResumeGivesUp(i: Inst)
    requires i.hasStart && i.state == Yielded(UserTy(0)) && i.entrypoint == Some(Handle(1, true))
    ensures var t := Perform(i, DoResume(0, 0, FAILS));
            t.hasStart && t.state.NotStarted? && StartEntries(t.log) == StartEntries(i.log)
  {
  }

  /** A start function that yields and then cannot be resumed is entered a second time. */
  lemma StartTwice()
    ensures var a, b := DoRunStart(1, true, YIELDS), DoResume(0, 0, FAILS);
            StartEntries(After(true, [a, b, a]).log) == 2
  {
    hide Perform;
    var a, b := DoRunStart(1, true, YIELDS), DoResume(0, 0, FAILS);
    assert [a, b, a][..2] == [a, b] && [a, b][..1] == [a] && [a][..0] == [];
    StartYields(After(true, []));
    ResumeGivesUp(After(true, [a]));
    StartYields(After(true, [a, b]));
  }

  // A slice that runs into its bound, and one in which the guest returns.
  const EXPIRES: Slice := Slice(true, 1, Expires, true)
  const RETURNS: Slice := Slice(true, 0, Returns, true)

  lemma RunExpires(i: Inst)
    requires i.state.Ready?
    ensures var t := Perform(i, DoRunAsync(1, true, true, Some(1), [Turn(EXPIRES, None)]));
            && t.state.BoundExpired? && t.entrypoint == Some(Handle(1, false)) && t.ctx.AtBound?
            && LastEntered(t.log) == Some(Handle(1, false))
  {
    var call, turn := Call(Handle(1, false), true, true), Turn(EXPIRES, None);
    var c := SetBound(i.(entrypoint := Some(call.func)), Some(1)).(ctx := Fresh(call.func));
    var t := OneSlice(c, true, EXPIRES).0;
    assert LastEntered(t.log) == Some(Handle(1, false));
    var u := t.Note(Reported(Expired));
    assert RunFunc(i, call, true, Some(1), EXPIRES) == (u, Expired);
    assert [turn][1..] == [] && AsyncLoop(u, call, Some(1), None, []) == (u, Dropped);
  }

  lemma ExpiredReturns(i: Inst, call: Call)
    requires i.state.BoundExpired? && i.entrypoint.Some? && i.ctx.AtBound?
    ensures var (t, o) := RunAsync(i, call, Some(1), [Turn(RETURNS, None)]);
            o.Complete? && LastEntered(t.log) == LastEntered(i.log)
  {
    var c := SetBound(i, Some(1));
    var t := OneSlice(c, true, RETURNS).0;
    assert LastEntered(t.log) == LastEntered(i.log);
    assert SwapAndReturn(c, true, RETURNS) == (t.Note(Reported(Returned)), Returned);
  }

  /** A run with a bound expires and is dropped; a second run, of another function, completes without ever
      entering that function. */
  lemma StaleRun()
    ensures var i := After(false, [DoRunAsync(1, true, true, Some(1), [Turn(EXPIRES, None)])]);
            var (t, o) := RunAsync(i, Call(Handle(2, false), true, true), Some(1), [Turn(RETURNS, None)]);
            o.Complete? && LastEntered(t.log) == Some(Handle(1, false))
  {
    hide Perform, RunAsync;
    var a := DoRunAsync(1, true, true, Some(1), [Turn(EXPIRES, None)]);
    assert [a][..0] == [];
    RunExpires(After(false, []));
    ExpiredReturns(After(false, [a]), Call(Handle(2, false), true, true));
  }

  // ---- Kill switches ----

  /** `h'` continues `h`. */
  predicate Extends(h': History, h: History) {
    h' == h || (h'.Then? && Extends(h'.before, h))
  }

  /** Since `h` there was no reset, and every slice told the host that the guest yielded, that its bound
      expired, or that it could not be set up. */
  predicate Untouched(h': History, h: History) {
    h' == h || (h'.Then? && !Replaces(h'.event) && Untouched(h'.before, h))
  }

  lemma {:induction false} ExtendsTransitive(h: History, h1: History, h2: History)
    requires Extends(h1, h) && Extends(h2, h1)
    ensures Extends(h2, h)
  {
    if h2 != h1 {
      ExtendsTransitive(h, h1, h2.before);
    }
  }

  lemma {:induction false} ReplacedOrUntouched(h': History, h: History)
    requires Extends(h', h)
    ensures Replacements(h') >= Replacements(h)
    ensures Replacements(h') == Replacements(h) <==> Untouched(h', h)
  {
    if h' != h {
      ReplacedOrUntouched(h'.before, h);
    }
  }

  lemma ConcludeExtends(i: Inst, isAsync: bool, s: Slice)
    ensures var t := Conclude(Count(i, s.counted), isAsync, s.end); Extends(t.log, i.log) && t.hasStart == i.hasStart
  {
  }

  lemma TakeResultExtends(i: Inst, s: Slice)
    ensures var t := TakeResult(i, s).0; Extends(t.log, i.log) && t.hasStart == i.hasStart
  {
  }

  lemma SwapExtends(i: Inst, isAsync: bool, s: Slice)
    ensures var t := SwapAndReturn(i, isAsync, s).0; Extends(t.log, i.log) && t.hasStart == i.hasStart
  {
    if MayEnter(i) && s.ready {
      var r := i.(state := Running(isAsync));
      var w, left := Awaken(r), GuestRuns(r, isAsync, s);
      assert Extends(w.log, i.log);
      ConcludeExtends(w, isAsync, s);
      ExtendsTransitive(i.log, w.log, Conclude(Count(w, s.counted), isAsync, s.end).log);
      assert Extends(left.log, i.log);
      TakeResultExtends(left, s);
      ExtendsTransitive(i.log, left.log, TakeResult(left, s).0.log);
    }
  }

  lemma RunFuncExtends(i: Inst, call: Call, isAsync: bool, bound: Option<nat>, s: Slice)
    requires BoundOk(bound)
    ensures var t := RunFunc(i, call, isAsync, bound, s).0; Extends(t.log, i.log) && t.hasStart == i.hasStart
  {
    SwapExtends(SetBound(i.(entrypoint := Some(call.func)), bound).(ctx := Fresh(call.func)), isAsync, s);
  }

  lemma ResumeExtends(i: Inst, val: Value, isAsync: bool, bound: Option<nat>, s: Slice)
    requires BoundOk(bound)
    ensures var t := ResumeWithVal(i, val, isAsync, bound, s).0; Extends(t.log, i.log) && t.hasStart == i.hasStart
    ensures var t := SwapAndReturn(SetBound(i, bound), true, s).0; Extends(t.log, i.log) && t.hasStart == i.hasStart
  {
    SwapExtends(SetBound(i.(resumed := Some(val)), bound), isAsync, s);
    SwapExtends(SetBound(i, bound), true, s);
  }

  lemma {:induction false} AsyncLoopExtends(
      i: Inst, call: Call, bound: Option<nat>, resumeVal: Option<Value>, turns: seq<Turn>)
    requires BoundOk(bound)
    ensures var t := AsyncLoop(i, call, bound, resumeVal, turns).0; Extends(t.log, i.log) && t.hasStart == i.hasStart
    decreases |turns|
  {
    hide SwapAndReturn, RunFunc, SetBound;
    if turns != [] && !(i.state.Yielded? && resumeVal.None?) && !(i.state.BoundExpired? && bound.None?) {
      var s := turns[0].slice;
      var (t, o) :=
        if i.state.Yielded? then ResumeWithVal(i, resumeVal.value, true, bound, s)
        else if i.state.BoundExpired? then ResumeBounded(i, bound.value, s)
        else RunFunc(i, call, true, bound, s);
      if i.state.Yielded? {
        ResumeExtends(i, resumeVal.value, true, bound, s);
      } else {
        ResumeExtends(i, User(0, 0), true, bound, s);
        RunFuncExtends(i, call, true, bound, s);
      }
      var kept := if i.state.Yielded? then None else resumeVal;
      if o.Expired? {
        AsyncLoopExtends(t, call, bound, kept, turns[1..]);
        ExtendsTransitive(i.log, t.log, AsyncLoop(t, call, bound, kept, turns[1..]).0.log);
      } else if o.YieldedVal? && o.val.Future? && turns[0].output.Some? {
        var val := Some(ResumeVal(o.val.id, o.val.tag, turns[0].output.value));
        AsyncLoopExtends(t, call, bound, val, turns[1..]);
        ExtendsTransitive(i.log, t.log, AsyncLoop(t, call, bound, val, turns[1..]).0.log);
      }
    }
  }

  lemma PerformExtends(i: Inst, a: Action)
    ensures Extends(Perform(i, a).log, i.log) && Perform(i, a).hasStart == i.hasStart
  {
    hide SwapAndReturn, RunFunc, SetBound, AsyncLoop;
    match a
    case DoReset(ok) =>
    case DoRun(ptr, argsOk, ctxOk, s) => RunFuncExtends(i, Call(Handle(ptr, false), argsOk, ctxOk), false, None, s);
    case DoRunStart(ptr, ctxOk, s) => RunFuncExtends(i, Call(Handle(ptr, true), true, ctxOk), false, None, s);
    case DoResume(tag, payload, s) => ResumeExtends(i, User(tag, payload), false, None, s);
    case DoSetCount(count, bound) =>
    case DoRunAsync(ptr, argsOk, ctxOk, bound, turns) =>
      if BoundOk(bound) {
        AsyncLoopExtends(i, Call(Handle(ptr, false), argsOk, ctxOk), bound, None, turns);
      }
    case DoRunAsyncStart(ptr, ctxOk, bound, turns) =>
      if BoundOk(bound) {
        AsyncLoopExtends(i, Call(Handle(ptr, true), true, ctxOk), bound, None, turns);
      }
  }

  lemma {:induction false} AfterExtends(hasStart: bool, actions: seq<Action>, more: seq<Action>)
    ensures Extends(After(hasStart, actions + more).log, After(hasStart, actions).log)
  {
    hide Perform;
    if more == [] {
      assert actions + more == actions;
    } else {
      var all, n := actions + more, |actions + more| - 1;
      assert all[..n] == actions + more[..|more| - 1];
      AfterExtends(hasStart, actions, more[..|more| - 1]);
      PerformExtends(After(hasStart, all[..n]), all[n]);
      ExtendsTransitive(After(hasStart, actions).log, After(hasStart, all[..n]).log, After(hasStart, all).log);
    }
  }

  /** A kill switch issued after `actions` still refers to the instance's kill state after `more` exactly
      if there was no reset and no slice that ended in a return, a fault or a termination in between. */
  lemma KillSwitchIsFresh(hasStart: bool, actions: seq<Action>, more: seq<Action>)
    ensures var i, j := After(hasStart, actions), After(hasStart, actions + more);
            i.kill == j.kill <==> Untouched(j.log, i.log)
  {
    AlwaysInv(hasStart, actions);
    AlwaysInv(hasStart, actions + more);
    AfterExtends(hasStart, actions, more);
    ReplacedOrUntouched(After(hasStart, actions + more).log, After(hasStart, actions).log);
  }
}
