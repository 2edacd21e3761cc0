/** What the result of a call says about the instance, and which instances only a reset can revive. */
module InstanceEnds {
  import opened Basics
  import opened Int64
  import opened InstanceState
  import opened InstanceHistory
  import opened InstanceRuns

  // ---- Results ----

  /** The state a slice leaves behind, by what the host was told. */
  predicate Tells(o: Outcome, i: Inst) {
    match o
    case Returned => i.state.Ready?
    case YieldedVal(_) => i.state.Yielded?
    case Expired => i.state.BoundExpired?
    case Refused(RuntimeFault) => i.state.Faulted?
    case Refused(RuntimeTerminated) => i.state.Terminated?
    case Refused(AddressError) => i.state.Transitioning?
    case Refused(SetupError) => i.state.Ready? || i.state.NotStarted?
    case Refused(_) => false
  }

  /** What the host is told of a slice that is entered properly: a guest that returns, yields, blocks,
      expires, faults or is terminated is reported as just that. */
  function Told(isAsync: bool, s: Slice): Outcome {
    if !s.ready then Refused(SetupError)
    else match s.end
      case Returns => Returned
      case Yields(tag, payload, _, _) => YieldedVal(User(tag, payload))
      case Blocks(id, tag) => if isAsync then YieldedVal(Future(id, tag)) else Refused(RuntimeTerminated)
      case Expires => Expired
      case Terminates | Cancelled => Refused(RuntimeTerminated)
      case Faults(_) => Refused(if s.addrKnown then RuntimeFault else AddressError)
  }

  /** The state such a slice leaves the instance in. A fault is kept with its severity. */
  function StateAfter(isStart: bool, isAsync: bool, s: Slice): State {
    if !s.ready then if isStart then NotStarted else Ready
    else match s.end
      case Returns => Ready
      case Yields(_, _, ty, _) => Yielded(UserTy(ty))
      case Blocks(_, _) => if isAsync then Yielded(ResumeValTy) else Terminated
      case Expires => State.BoundExpired
      case Terminates | Cancelled => Terminated
      case Faults(fatal) => if s.addrKnown then State.Faulted(fatal) else Transitioning
  }

  /** Where it leaves the guest. */
  function ContAfter(was: Cont, isAsync: bool, s: Slice): Cont {
    if !s.ready then was
    else match s.end
      case Yields(_, _, ty, optional) => AwaitVal(UserTy(ty), optional)
      case Blocks(id, tag) => if isAsync then AwaitFuture(id, tag) else Gone
      case Expires => AtBound
      case _ => Gone
  }

  /** What it counts: nothing if the guest is not swapped in, or is killed before it is entered. */
  function CountedBy(unentered: bool, s: Slice): nat {
    if !s.ready || (unentered && s.end.Cancelled?) then 0 else s.counted
  }

  predicate Awaits(c: Cont) { c.AwaitVal? || c.AwaitFuture? }

  /** One slice from the outside: what the host is told, and everything it leaves of the instance. */
  lemma SwapLeaves(i: Inst, isAsync: bool, s: Slice)
    requires MayEnter(i) && Enterable(i) && Books(i)
    ensures var (t, o) := SwapAndReturn(i, isAsync, s);
            && o == Told(isAsync, s)
            && t == i.(state := StateAfter(i.entrypoint.value.isStart, isAsync, s),
                       kill := if Suspends(o) then i.kill else i.kill + 1,
                       resumed := if s.ready && Awaits(i.ctx) then None else i.resumed,
                       counter := i.counter.(adj := Wrap(i.counter.adj + CountedBy(i.ctx.Fresh?, s))),
                       ctx := ContAfter(i.ctx, isAsync, s),
                       log := t.log)
  {
    if s.ready {
      GuestEnds(i.(state := Running(isAsync)), isAsync, s);
      TakeResultTells(GuestRuns(i.(state := Running(isAsync)), isAsync, s), isAsync, s);
    }
    hide GuestRuns, TakeResult, Books, Enterable, Wrap;
  }

  lemma SwapTells(i: Inst, isAsync: bool, s: Slice)
    requires MayEnter(i) && Enterable(i) && Books(i)
    ensures var (t, o) := SwapAndReturn(i, isAsync, s);
            && Tells(o, t)
            && o == Told(isAsync, s)
            && (o == Refused(SetupError) <==> !s.ready)
  {
    SwapLeaves(i, isAsync, s);
    hide SwapAndReturn, Books, Enterable;
  }

  /** The state a guest that was entered properly leaves. */
  function EndState(end: GuestEnd, isAsync: bool): State {
    match end
    case Returns => Running(isAsync)
    case Yields(tag, payload, ty, _) => Yielding(User(tag, payload), UserTy(ty))
    case Blocks(id, tag) => if isAsync then Yielding(Future(id, tag), ResumeValTy) else Terminating
    case Expires => State.BoundExpired
    case Terminates | Cancelled => Terminating
    case Faults(fatal) => State.Faulted(fatal)
  }

  lemma GuestEnds(i: Inst, isAsync: bool, s: Slice)
    requires Enterable(i) && Books(i) && i.state == Running(isAsync)
    ensures var t := GuestRuns(i, isAsync, s);
            t == i.(state := EndState(s.end, isAsync),
                    resumed := if Awaits(i.ctx) then None else i.resumed,
                    counter := i.counter.(adj := Wrap(i.counter.adj + CountedBy(i.ctx.Fresh?, s.(ready := true)))),
                    ctx := ContAfter(i.ctx, isAsync, s.(ready := true)),
                    log := t.log)
  {
    AwakenTakes(i);
    hide Enterable, Books, Awaken;
    assert i.counter.(adj := Wrap(i.counter.adj + 0)) == i.counter;
  }

  lemma AwakenTakes(i: Inst)
    requires Enterable(i)
    ensures Awaken(i) == i.(resumed := if Awaits(i.ctx) then None else i.resumed, log := Awaken(i).log)
  {
  }

  lemma TakeResultTells(i: Inst, isAsync: bool, s: Slice)
    requires i.state == EndState(s.end, isAsync) && s.ready
    ensures var (t, o) := TakeResult(i, s);
            && o == Told(isAsync, s)
            && t == i.(state := StateAfter(false, isAsync, s), kill := if Suspends(o) then i.kill else i.kill + 1)
  {
  }

  // ---- The kill state ----

  lemma TakeResultReplaces(i: Inst, s: Slice)
    requires i.state.Running? || i.state.Terminating? || i.state.Yielding? || i.state.Faulted? || i.state.BoundExpired?
    ensures var (t, o) := TakeResult(i, s);
            && t.kill == (if o.YieldedVal? || o.Expired? then i.kill else i.kill + 1)
            && o != Refused(SetupError)
  {
  }

  /** A slice keeps the kill state exactly if the host is told that the guest yielded, that its bound
      expired or that setup failed; else there is a fresh one. */
  lemma SwapReplacesKill(i: Inst, isAsync: bool, s: Slice)
    requires MayEnter(i)
    ensures var (t, o) := SwapAndReturn(i, isAsync, s);
            t.kill == if o.YieldedVal? || o.Expired? || o == Refused(SetupError) then i.kill else i.kill + 1
  {
    var running := i.(state := Running(isAsync));
    if s.ready {
      TakeResultReplaces(GuestRuns(running, isAsync, s), s);
    }
    hide TakeResult;
  }

  /** The same by how the slice ended: the guest yielded, blocked on a future, ran into its bound, or was
      never swapped in. */
  lemma SliceReplacesKill(i: Inst, isAsync: bool, s: Slice)
    requires MayEnter(i) && Enterable(i) && Books(i)
    ensures SwapAndReturn(i, isAsync, s).0.kill == i.kill <==>
            !s.ready || s.end.Yields? || (s.end.Blocks? && isAsync) || s.end.Expires?
  {
    SwapTells(i, isAsync, s);
    SwapReplacesKill(i, isAsync, s);
    hide SwapAndReturn;
  }

  // ---- Refusals ----

  /** When a run is refused. One refused for its state or its arguments changes nothing at all; one whose
      context cannot be set up has set the entry point and the bound, and nothing else. */
  lemma RunRefusals(i: Inst, call: Call, isAsync: bool, bound: Option<nat>, s: Slice)
    requires Inv(i) && BoundOk(bound) && (call.func.isStart ==> i.state.NotStarted?)
    ensures var (t, o) := RunFunc(i, call, isAsync, bound, s);
            && (o == Refused(NeedsStart) || o == Refused(InvalidArgument) ==> t == i)
            && (o == Refused(NeedsStart) <==> i.state.NotStarted? && !call.func.isStart)
            && (o == Refused(InvalidArgument) <==>
                && (i.state.NotStarted? ==> call.func.isStart)
                && (Unrunnable(i) || call.func.ptr == 0 || !call.argsOk))
            && (o == Refused(ContextError) <==>
                && (i.state.NotStarted? ==> call.func.isStart)
                && !Unrunnable(i) && call.func.ptr != 0 && call.argsOk && !call.ctxOk)
            && (o == Refused(ContextError) ==> t == SetBound(i.(entrypoint := Some(call.func)), bound))
  {
    var c := i.(entrypoint := Some(call.func));
    BoundKeepsBooks(c, bound);
    var e := SetBound(c, bound).(ctx := Fresh(call.func));
    if MayEnter(e) && Enterable(e) {
      SwapTells(e, isAsync, s);
    }
    hide SwapAndReturn, Books, Clean, Paired, StartFirst, Told;
  }

  /** When a resume is refused; a refused resume changes nothing at all. */
  lemma ResumeRefusals(i: Inst, val: Value, isAsync: bool, bound: Option<nat>, s: Slice)
    requires Inv(i) && BoundOk(bound) && Fits(i, val)
    ensures var (t, o) := ResumeWithVal(i, val, isAsync, bound, s);
            && (o == Refused(InvalidArgument) ==> t == i)
            && (o == Refused(InvalidArgument) <==> !i.state.Yielded? || i.state.expecting != TypeOf(val))
  {
    var r := i.(resumed := Some(val));
    BoundKeepsBooks(r, bound);
    var d := SetBound(r, bound);
    if MayEnter(d) && Enterable(d) {
      SwapTells(d, isAsync, s);
    }
    hide SwapAndReturn, Books, Clean, Paired, StartFirst, Told;
  }

  /** Suspended, done for, or in transition. */
  predicate Unrunnable(i: Inst) {
    || i.state.Yielded? || i.state.BoundExpired? || i.state.Terminated? || i.state.Transitioning?
    || (i.state.Faulted? && i.state.fatal)
  }

  // ---- Instances beyond use ----

  /** Terminated, fatally faulted, left in transition, or waiting for the output of a future whose async
      run has been dropped: a user cannot make such a value. */
  predicate NeedsReset(i: Inst) {
    || i.state.Terminated?
    || i.state.Transitioning?
    || (i.state.Faulted? && i.state.fatal)
    || (i.state.Yielded? && i.state.expecting == ResumeValTy)
  }

  /** A reset, or setting the counter, which is always possible and concerns nothing else. */
  predicate Overrides(a: Action) {
    a == DoReset(true) || a.DoSetCount?
  }

  lemma BeyondUse(i: Inst, a: Action)
    requires NeedsReset(i) && !Overrides(a)
    ensures Perform(i, a) == i
  {
    hide SwapAndReturn, SetBound;
  }

  function Length(h: History): nat {
    match h
    case Nothing => 0
    case Then(b, _) => Length(b) + 1
  }

  /** A call that still reaches the guest, short of entering it. */
  function Attempt(i: Inst): Action {
    match i.state
    case NotStarted => DoRunStart(1, true, FAILS)
    case Yielded(UserTy(tag)) => DoResume(tag, 0, FAILS)
    case BoundExpired => DoRunAsync(1, true, true, Some(1), [Turn(FAILS, None)])
    case _ => DoRun(1, true, true, FAILS)
  }

  lemma StillOfUse(i: Inst)
    requires Inv(i) && !NeedsReset(i)
    ensures !Overrides(Attempt(i))
    ensures Length(Perform(i, Attempt(i)).log) == Length(i.log) + 2
  {
    hide Clean, Paired, StartFirst, Replacements, Tally, Outstanding;
  }

  /** These are exactly the instances on which no call has any effect, but a successful reset or setting
      the counter. */
  lemma OnlyResetRevives(i: Inst)
    requires Inv(i)
    ensures NeedsReset(i) <==> forall a: Action :: !Overrides(a) ==> Perform(i, a) == i
  {
    hide Perform, Inv, NeedsReset, Overrides;
    if NeedsReset(i) {
      forall a: Action | !Overrides(a)
        ensures Perform(i, a) == i
      {
        BeyondUse(i, a);
      }
    } else {
      StillOfUse(i);
      assert Perform(i, Attempt(i)) != i;
    }
  }

  /** Equal but for the counter and what the history says of it. */
  predicate Frozen(i: Inst, j: Inst) {
    j == i.(counter := j.counter, log := j.log) && OnlySet(j.log, i.log)
  }

  predicate OnlySet(h': History, h: History) {
    h' == h || (h'.Then? && h'.event.CountSet? && OnlySet(h'.before, h))
  }

  lemma FrozenStays(i: Inst, j: Inst, a: Action)
    requires NeedsReset(i) && Frozen(i, j) && a != DoReset(true)
    ensures Frozen(i, Perform(j, a))
  {
    hide Perform;
    if !a.DoSetCount? {
      BeyondUse(j, a);
    } else {
      SetsCountOnly(j, a);
    }
  }

  lemma SetsCountOnly(i: Inst, a: Action)
    requires a.DoSetCount?
    ensures Perform(i, a) == if a.count <= MAX && a.countBound <= MAX then SetCount(i, a.count, a.countBound) else i
  {
  }

  /** Such an instance stays as it is over every further sequence of calls without a successful reset. */
  lemma {:induction false} StaysUntilReset(hasStart: bool, actions: seq<Action>, more: seq<Action>)
    requires NeedsReset(After(hasStart, actions)) && DoReset(true) !in more
    ensures Frozen(After(hasStart, actions), After(hasStart, actions + more))
  {
    hide Perform, NeedsReset;
    if more == [] {
      assert actions + more == actions;
    } else {
      var all, n := actions + more, |actions + more| - 1;
      assert all[..n] == actions + more[..|more| - 1];
      assert all[n] == more[|more| - 1];
      StaysUntilReset(hasStart, actions, more[..|more| - 1]);
      FrozenStays(After(hasStart, actions), After(hasStart, all[..n]), all[n]);
    }
  }

  /** An async run that is dropped while it waits for a future leaves its instance beyond use. */
  lemma DroppedRunNeedsReset(i: Inst, ptr: nat, id: nat, tag: nat)
    requires Inv(i) && i.state.Ready? && ptr != 0
    ensures var blocks := Turn(Slice(true, 0, Blocks(id, tag), true), None);
            NeedsReset(Perform(i, DoRunAsync(ptr, true, true, None, [blocks])))
  {
    hide Clean, Paired, StartFirst, Replacements, Tally, Outstanding;
  }
}
