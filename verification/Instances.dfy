/** The runtime's `Instance`: host calls and guest hostcalls update its fields in place, as
    `InstanceState` says they do. */
module Instances {
  import opened Basics
  import opened Int64
  import opened InstanceState
  import opened InstanceHistory
  import opened InstanceRuns

  class Instance {
    const hasStart: bool
    var state: State
    var killState: nat
    var resumedVal: Option<Value>
    var entrypoint: Option<Handle>
    var instructionCountAdj: i64
    var instructionCountBound: i64
    var ctx: Cont
    ghost var log: History

    ghost function Value(): (v: Inst)
      reads this
      ensures v.state == state
    {
      Inst(hasStart, state, killState, resumedVal, entrypoint,
           Counter(instructionCountAdj, instructionCountBound), ctx, log)
    }

    ghost predicate Valid()
      reads this
    {
      Inv(Value())
    }

    constructor (hasStart: bool)
      ensures Valid() && Value() == New(hasStart)
    {
      this.hasStart := hasStart;
      state := if hasStart then NotStarted else Ready;
      killState := 1;
      resumedVal, entrypoint := None, None;
      instructionCountAdj, instructionCountBound := 0, 0;
      ctx := Gone;
      log := Then(Nothing, WasReset);
      new;
      NewIsFine(hasStart);
    }

    // ---- Counter ----

    method SetInstructionBoundDelta(bound: Option<nat>)
      requires BoundOk(bound)
      modifies this
      ensures Value() == SetBound(old(Value()), bound)
    {
      var sum := Wrap(instructionCountAdj + instructionCountBound);
      var delta := if bound.Some? then bound.value else MAX;
      instructionCountBound := Wrap(sum + delta);
      instructionCountAdj := 0 - delta;
    }

    /** Numbers that do not fit an `i64` panic before anything has changed. */
    method SetInstructionCountAndBound(count: nat, bound: nat)
      requires count <= MAX && bound <= MAX
      modifies this
      ensures Value() == SetCount(old(Value()), count, bound)
      ensures old(Valid()) ==> Valid()
    {
      ghost var was := Value();
      if Valid() {
        SetCountKeeps(was, count, bound);
      }
      instructionCountBound := bound;
      instructionCountAdj := count - bound;
      log := Then(log, CountSet(count));
    }

    /** The count the host reads is the tally of everything the guest has counted. */
    method GetInstructionCount() returns (count: i64)
      requires Valid()
      ensures count == Wrap(Tally(log))
    {
      count := Wrap(instructionCountBound + instructionCountAdj);
    }

    // ---- Hostcalls and other guest steps ----

    method TryTakeResumedVal(ty: Ty) returns (val: Option<Value>)
      modifies this`resumedVal
      ensures val == if old(resumedVal).Some? && TypeOf(old(resumedVal).value) == ty then old(resumedVal) else None
      ensures resumedVal == if val.Some? then None else old(resumedVal)
    {
      val, resumedVal := resumedVal, None;
      if val.Some? && TypeOf(val.value) != ty {
        resumedVal, val := val, None;
      }
    }

    method Terminate(ghost reason: Event)
      modifies this
      ensures Value() == Die(old(Value()), reason)
    {
      state, ctx := Terminating, Gone;
      log := Then(log, reason);
    }

    method YieldImpl(val: Value, expecting: Ty, isBoundExpiration: bool, next: Cont)
      modifies this
      ensures Value() == old(Value()).(
          state := if isBoundExpiration then State.BoundExpired else Yielding(val, expecting), ctx := next)
    {
      state := if isBoundExpiration then State.BoundExpired else Yielding(val, expecting);
      ctx := next;
    }

    /** The guest picks up where it was: a fresh entry, or taking what it was resumed with. */
    method WakeGuest()
      modifies this
      ensures Value() == Awaken(old(Value()))
    {
      match ctx {
        case Fresh(func) => log := Then(log, Entered(func));
        case AtBound =>
        case AwaitVal(ty, optional) =>
          var val := TryTakeResumedVal(ty);
          if val.Some? {
            log := Then(log, Delivered(val.value));
          } else if !optional {
            Terminate(TypeMismatch);
          }
        case AwaitFuture(id, tag) =>
          var val := TryTakeResumedVal(ResumeValTy);
          if val.None? {
            Terminate(TypeMismatch);
          } else if val.value.tag != tag {
            Terminate(BrokenPromise);
          } else {
            log := Then(log, Delivered(val.value));
          }
        case Gone => Terminate(BadContext);
      }
    }

    method BlockOn(id: nat, tag: nat)
      requires state.Running?
      modifies this
      ensures Value() == Conclude(old(Value()), old(state.isAsync), Blocks(id, tag))
    {
      if state.isAsync {
        YieldImpl(Future(id, tag), ResumeValTy, false, AwaitFuture(id, tag));
        log := Then(log, Blocked(id));
      } else {
        state, ctx := Terminating, Gone;
      }
    }

    method EndSlice(end: GuestEnd)
      requires state.Running?
      modifies this
      ensures Value() == Conclude(old(Value()), old(state.isAsync), end)
    {
      match end {
        case Returns => ctx := Gone;
        case Yields(tag, payload, ty, optional) =>
          YieldImpl(User(tag, payload), UserTy(ty), false, AwaitVal(UserTy(ty), optional));
        case Blocks(id, tag) => BlockOn(id, tag);
        case Expires => YieldImpl(User(0, 0), UserTy(0), true, AtBound);
        case Terminates | Cancelled => state, ctx := Terminating, Gone;
        case Faults(fatal) => state, ctx := Faulted(fatal), Gone;
      }
    }

    method RunGuest(s: Slice)
      requires state.Running?
      modifies this
      ensures Value() == GuestRuns(old(Value()), old(state.isAsync), s)
    {
      if s.end.Cancelled? && ctx.Fresh? {
        state, ctx := Terminating, Gone;
        return;
      }
      WakeGuest();
      if state.Terminating? {
        return;
      }
      instructionCountAdj := Wrap(instructionCountAdj + s.counted);
      log := Then(log, Counted(s.counted));
      EndSlice(s.end);
    }

    // ---- Running and resuming ----

    /** The host takes the result out of the state the guest left. No other state can be found here. */
    method ExtractResult(s: Slice) returns (o: Outcome)
      requires Leaves(state)
      modifies this
      ensures (Value(), o) == TakeResult(old(Value()), s)
    {
      var st := state;
      state := Transitioning;
      if !st.Yielding? && !st.BoundExpired? {
        killState := killState + 1;
      }
      match st {
        case Running(_) =>
          state := Ready;
          o := Returned;
        case Terminating =>
          state := Terminated;
          o := Refused(RuntimeTerminated);
        case Yielding(val, expecting) =>
          state := Yielded(expecting);
          o := YieldedVal(val);
        case Faulted(fatal) =>
          if !s.addrKnown {
            return Refused(AddressError);
          }
          state := st;
          o := Refused(RuntimeFault);
        case BoundExpired =>
          state := st;
          o := Expired;
        case _ =>
          assert false;
      }
    }

    /** The assertion on the state being entered is this method's precondition. */
    method Swap(isAsync: bool, s: Slice) returns (o: Outcome)
      requires MayEnter(Value())
      modifies this
      ensures (Value(), o) == SwapAndReturn(old(Value()), isAsync, s)
    {
      hide Awaken, Conclude, Count, Settle;
      var isStart := entrypoint.value.isStart;
      state := Running(isAsync);
      if !s.ready {
        state := if isStart then NotStarted else Ready;
        log := Then(Then(log, SetupFailed(isStart, !ctx.Fresh?)), Reported(Refused(SetupError)));
        return Refused(SetupError);
      }
      assert Value() == old(Value()).(state := Running(isAsync));
      GuestStops(Value(), isAsync, s);
      RunGuest(s);
      o := ExtractResult(s);
      log := Then(log, Reported(o));
    }

    method RunFunc(call: Call, isAsync: bool, bound: Option<nat>, s: Slice) returns (o: Outcome)
      requires BoundOk(bound)
      modifies this
      ensures (Value(), o) == InstanceState.RunFunc(old(Value()), call, isAsync, bound, s)
      ensures old(Valid()) && (call.func.isStart ==> old(state).NotStarted?) ==> Valid()
    {
      ghost var was := Value();
      if Inv(was) && (call.func.isStart ==> was.state.NotStarted?) {
        RunFuncKeeps(was, call, isAsync, bound, s);
      }
      hide Inv;
      if state.NotStarted? && !call.func.isStart {
        return Refused(NeedsStart);
      }
      if !(state.Ready? || state.NotStarted? || (state.Faulted? && !state.fatal)) {
        return Refused(InvalidArgument);
      }
      if call.func.ptr == 0 || !call.argsOk {
        return Refused(InvalidArgument);
      }
      entrypoint := Some(call.func);
      SetInstructionBoundDelta(bound);
      if !call.ctxOk {
        return Refused(ContextError);
      }
      ctx := Fresh(call.func);
      o := Swap(isAsync, s);
    }

    /** A suspended instance always has an entry point, as the swap expects. */
    method ResumeWithVal(val: Value, isAsync: bool, bound: Option<nat>, s: Slice) returns (o: Outcome)
      requires BoundOk(bound) && (state.Yielded? ==> entrypoint.Some?)
      modifies this
      ensures (Value(), o) == InstanceState.ResumeWithVal(old(Value()), val, isAsync, bound, s)
      ensures old(Valid() && Fits(Value(), val)) ==> Valid()
    {
      ghost var was := Value();
      if Inv(was) && Fits(was, val) {
        ResumeWithValKeeps(was, val, isAsync, bound, s);
      }
      hide Inv, Fits;
      if !state.Yielded? || state.expecting != TypeOf(val) {
        return Refused(InvalidArgument);
      }
      resumedVal := Some(val);
      SetInstructionBoundDelta(bound);
      o := Swap(isAsync, s);
    }

    method ResumeBounded(bound: nat, s: Slice) returns (o: Outcome)
      requires bound <= MAX && (state.BoundExpired? ==> entrypoint.Some?)
      modifies this
      ensures (Value(), o) == InstanceState.ResumeBounded(old(Value()), bound, s)
      ensures old(Valid()) ==> Valid()
    {
      ghost var was := Value();
      if Inv(was) {
        ResumeBoundedKeeps(was, bound, s);
      }
      hide Inv;
      if !state.BoundExpired? {
        return Refused(InvalidArgument);
      }
      SetInstructionBoundDelta(Some(bound));
      o := Swap(true, s);
    }

    method RunStart(call: Call, s: Slice) returns (o: Outcome)
      requires call.func.isStart
      modifies this
      ensures (Value(), o) == InstanceState.RunStart(old(Value()), call, s)
      ensures old(Valid()) ==> Valid()
    {
      if hasStart {
        if !state.NotStarted? {
          return Refused(StartAlreadyRun);
        }
        o := RunFunc(call, false, None, s);
        if o.Refused? {
          return o;
        }
      }
      o := Returned;
    }

    method Reset(heapOk: bool) returns (o: Outcome)
      requires Valid()
      modifies this
      ensures Valid()
      ensures (Value(), o) == InstanceState.Reset(old(Value()), heapOk)
    {
      ResetKeeps(Value(), heapOk);
      if !heapOk {
        return Refused(ResetError);
      }
      state := if hasStart then NotStarted else Ready;
      killState := killState + 1;
      log := Then(log, WasReset);
      o := Returned;
    }

    // ---- The async loop ----

    /** One turn: resume with the awaited output, resume with a new bound, or enter `func`. */
    method Turn(call: Call, bound: Option<nat>, resumeVal: Option<Value>, s: Slice) returns (o: Outcome)
      requires BoundOk(bound) && Sound(Value())
      requires (state.Yielded? ==> resumeVal.Some?) && (state.BoundExpired? ==> bound.Some?)
      modifies this
      ensures Sound(Value()) && Follows(Value(), o)
      ensures o.YieldedVal? ==> state.Yielded?
      ensures old(AtHead(Value(), call, resumeVal)) ==> Valid()
      ensures (Value(), o) == OneTurn(old(Value()), call, bound, resumeVal, s)
    {
      TurnFollows(Value(), call, bound, resumeVal, s);
      hide Follows, Sound, Inv, Fits, InstanceState.RunFunc, InstanceState.ResumeWithVal, InstanceState.ResumeBounded;
      if state.Yielded? {
        o := ResumeWithVal(resumeVal.value, true, bound, s);
      } else if state.BoundExpired? {
        o := ResumeBounded(bound.value, s);
      } else {
        o := RunFunc(call, true, bound, s);
      }
    }

    method RunLoop(call: Call, bound: Option<nat>, turns: seq<Turn>) returns (r: AsyncResult)
      requires BoundOk(bound) && Sound(Value()) && !state.Yielded?
      modifies this
      ensures Sound(Value())
      ensures (Value(), r) == AsyncLoop(old(Value()), call, bound, None, turns)
    {
      ghost var result := AsyncLoop(Value(), call, bound, None, turns);
      var resumeVal: Option<Value> := None;
      var k := 0;
      hide AsyncLoop, Inv;
      assert turns[0..] == turns && LeadsTo(Value(), call, bound, resumeVal, turns, 0, result);
      hide *;
      while k < |turns|
        invariant k <= |turns|
        invariant Sound(Value()) && (state.Yielded? ==> resumeVal.Some?)
        invariant LeadsTo(Value(), call, bound, resumeVal, turns, k, result)
      {
        LoopTurns(Value(), call, bound, resumeVal, turns, k, result);
        if state.BoundExpired? && bound.None? {
          return Panicked;
        }
        var wasYielded := state.Yielded?;
        var o := Turn(call, bound, resumeVal, turns[k].slice);
        if wasYielded {
          resumeVal := None;
        }
        match o {
          case Returned => return Complete;
          case Refused(e) => return Failed(e);
          case Expired =>
          case YieldedVal(v) =>
            if !v.Future? {
              return Failed(Unsupported);
            }
            if turns[k].output.None? {
              return Dropped;
            }
            resumeVal := Some(ResumeVal(v.id, v.tag, turns[k].output.value));
        }
        k := k + 1;
      }
      NoTurns(Value(), call, bound, resumeVal, turns, result);
      r := Dropped;
    }

    /** Whatever handle it is given; with one that keeps the start discipline the invariant is kept too. */
    method RunAsyncInternal(call: Call, bound: Option<nat>, turns: seq<Turn>) returns (r: AsyncResult)
      requires BoundOk(bound) && Sound(Value())
      modifies this
      ensures Sound(Value())
      ensures (Value(), r) == RunAsync(old(Value()), call, bound, turns)
      ensures old(Valid()) && (call.func.isStart ==> old(state).NotStarted?) ==> Valid()
    {
      RunAsyncKeeps(Value(), call, bound, turns);
      hide Inv, AsyncLoop, Sound;
      if state.Yielded? {
        return Failed(Unsupported);
      }
      r := RunLoop(call, bound, turns);
    }
  }

  /** What a swap relies on: whoever is suspended was entered through some entry point. */
  predicate Sound(i: Inst) {
    i.state.Yielded? || i.state.BoundExpired? ==> i.entrypoint.Some?
  }

  /** The states in which a guest can swap back. */
  predicate Leaves(s: State) {
    s.Running? || s.Terminating? || s.Yielding? || s.Faulted? || s.BoundExpired?
  }

  lemma GuestStops(i: Inst, isAsync: bool, s: Slice)
    requires i.state.Running?
    ensures Leaves(GuestRuns(i, isAsync, s).state)
    ensures GuestRuns(i, isAsync, s).entrypoint == i.entrypoint
  {
  }

  lemma RunAsyncKeeps(i: Inst, call: Call, bound: Option<nat>, turns: seq<Turn>)
    requires BoundOk(bound)
    ensures Inv(i) && (call.func.isStart ==> i.state.NotStarted?) ==> Inv(RunAsync(i, call, bound, turns).0)
  {
    hide AsyncLoop;
    if Inv(i) && (call.func.isStart ==> i.state.NotStarted?) && !i.state.Yielded? {
      AsyncLoopKeeps(i, call, bound, None, turns);
    }
  }

  /** The loop, with the turns from `k` on still to come, leads to this result. */
  ghost predicate LeadsTo(
      i: Inst, call: Call, bound: Option<nat>, resumeVal: Option<Value>, turns: seq<Turn>, k: nat,
      result: (Inst, AsyncResult))
    requires BoundOk(bound) && k <= |turns|
  {
    AsyncLoop(i, call, bound, resumeVal, turns[k..]) == result
  }

  /** What one turn leaves of the loop. */
  lemma LoopTurns(
      i: Inst, call: Call, bound: Option<nat>, resumeVal: Option<Value>, turns: seq<Turn>, k: nat,
      result: (Inst, AsyncResult))
    requires BoundOk(bound) && k < |turns| && (i.state.Yielded? ==> resumeVal.Some?)
    requires LeadsTo(i, call, bound, resumeVal, turns, k, result)
    ensures if i.state.BoundExpired? && bound.None? then result == (i, Panicked)
            else
              var (t, o) := OneTurn(i, call, bound, resumeVal, turns[k].slice);
              match o
              case Returned => result == (t, Complete)
              case Refused(e) => result == (t, Failed(e))
              case Expired =>
                LeadsTo(t, call, bound, if i.state.Yielded? then None else resumeVal, turns, k + 1, result)
              case YieldedVal(v) =>
                if !v.Future? then result == (t, Failed(Unsupported))
                else if turns[k].output.None? then result == (t, Dropped)
                else
                  var val := Some(ResumeVal(v.id, v.tag, turns[k].output.value));
                  LeadsTo(t, call, bound, val, turns, k + 1, result)
  {
    hide OneTurn;
    assert turns[k..][0] == turns[k] && turns[k..][1..] == turns[k + 1..];
  }

  lemma NoTurns(
      i: Inst, call: Call, bound: Option<nat>, resumeVal: Option<Value>, turns: seq<Turn>, result: (Inst, AsyncResult))
    requires BoundOk(bound) && LeadsTo(i, call, bound, resumeVal, turns, |turns|, result)
    ensures result == (i, Dropped)
  {
  }

  lemma SwapFollows(i: Inst, isAsync: bool, s: Slice)
    requires MayEnter(i)
    ensures var (t, o) := SwapAndReturn(i, isAsync, s); Follows(t, o) && Sound(t)
  {
  }

  lemma TurnFollows(i: Inst, call: Call, bound: Option<nat>, resumeVal: Option<Value>, s: Slice)
    requires BoundOk(bound) && Sound(i)
    requires (i.state.Yielded? ==> resumeVal.Some?) && (i.state.BoundExpired? ==> bound.Some?)
    ensures var (t, o) := OneTurn(i, call, bound, resumeVal, s); Follows(t, o) && Sound(t)
  {
    var c := SetBound(i.(entrypoint := Some(call.func)), bound).(ctx := Fresh(call.func));
    if MayEnter(c) {
      SwapFollows(c, true, s);
    }
    var d := SetBound(i.(resumed := resumeVal), bound);
    if MayEnter(d) {
      SwapFollows(d, true, s);
    }
    var e := SetBound(i, bound);
    if MayEnter(e) {
      SwapFollows(e, true, s);
    }
    hide SwapAndReturn;
  }
}
