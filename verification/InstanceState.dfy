/** The life of an instance: what the host may ask of it, what its guest may do, and a history of both.
    Kill states are identity tokens, a context swap is the guest taking one slice of steps, and
    dynamic types are tags. */
module InstanceState {
  import opened Basics
  import opened Int64

  // ---- Values and their dynamic types ----

  datatype Ty = UserTy(tag: nat) | ResumeValTy | FutureTy

  /** `ResumeVal` boxes the output of future `id`, `Future` is the yielded future itself; only the runtime
      makes either. `tag` is the type of what is inside. */
  datatype Value = User(tag: nat, payload: int) | ResumeVal(id: nat, tag: nat, payload: int) | Future(id: nat, tag: nat)

  function TypeOf(v: Value): Ty {
    match v
    case User(tag, _) => UserTy(tag)
    case ResumeVal(_, _, _) => ResumeValTy
    case Future(_, _) => FutureTy
  }

  // ---- State ----

  datatype State =
    | NotStarted
    | Ready
    | Running(isAsync: bool)
    | Faulted(fatal: bool)
    | Terminating
    | Terminated
    | Yielding(val: Value, expecting: Ty)
    | Yielded(expecting: Ty)
    | BoundExpired
    | Transitioning

  datatype Handle = Handle(ptr: nat, isStart: bool)

  /** Where the guest context continues when it is swapped in. */
  datatype Cont =
    | Fresh(func: Handle)
    | AwaitVal(ty: Ty, optional: bool)
    | AwaitFuture(id: nat, tag: nat)
    | AtBound
    | Gone

  datatype Error =
    | NeedsStart
    | InvalidArgument
    | SetupError
    | ContextError
    | RuntimeFault
    | RuntimeTerminated
    | AddressError
    | StartAlreadyRun
    | Unsupported
    | ResetError
    | Unreached

  datatype Outcome = Returned | YieldedVal(val: Value) | Expired | Refused(error: Error)

  /** What happened, as the history records it: `Reported` is what a slice told the host, `Delivered` the
      value a guest took when it was resumed. */
  datatype Event =
    | WasReset
    | Entered(func: Handle)
    | Counted(n: nat)
    | CountSet(n: nat)
    | SetupFailed(isStart: bool, resuming: bool)
    | Blocked(id: nat)
    | Delivered(val: Value)
    | Reported(outcome: Outcome)
    | TypeMismatch
    | BrokenPromise
    | BadContext
    | Impossible

  datatype History = Nothing | Then(before: History, event: Event)

  datatype Inst = Inst(
    hasStart: bool,
    state: State,
    kill: nat,
    resumed: Option<Value>,
    entrypoint: Option<Handle>,
    counter: Counter,
    ctx: Cont,
    log: History)
  {
    function Note(e: Event): Inst { this.(log := Then(log, e)) }
  }

  // ---- What the guest may do in one slice ----

  /** How a slice ends. A guest hostcall yields a user value and expects a user type; `block_on` yields
      a future. `Terminates` covers every other panic of a hostcall and a remote kill, `Cancelled` a kill
      that arrived before the guest was entered. */
  datatype GuestEnd =
    | Returns
    | Yields(tag: nat, payload: int, expecting: nat, optional: bool)
    | Blocks(id: nat, tag: nat)
    | Expires
    | Terminates
    | Cancelled
    | Faults(fatal: bool)

  /** One swap into the guest. `ready` is whether thread and signal setup succeed, `counted` what
      the compiled code counts, `addrKnown` whether a fault address can be looked up. */
  datatype Slice = Slice(ready: bool, counted: nat, end: GuestEnd, addrKnown: bool)

  function Die(i: Inst, e: Event): Inst {
    i.(state := Terminating, ctx := Gone, log := Then(i.log, e))
  }

  /** The guest side of a resume: it takes the value it was waiting for. */
  function Awaken(i: Inst): Inst {
    match i.ctx
    case Fresh(func) => i.Note(Entered(func))
    case AtBound => i
    case AwaitVal(ty, optional) =>
      if i.resumed.Some? && TypeOf(i.resumed.value) == ty then i.(resumed := None).Note(Delivered(i.resumed.value))
      else if optional then i
      else Die(i, TypeMismatch)
    case AwaitFuture(id, tag) =>
      if i.resumed.None? || !i.resumed.value.ResumeVal? then Die(i, TypeMismatch)
      else if i.resumed.value.tag != tag then Die(i.(resumed := None), BrokenPromise)
      else i.(resumed := None).Note(Delivered(i.resumed.value))
    case Gone => Die(i, BadContext)
  }

  function Conclude(i: Inst, isAsync: bool, end: GuestEnd): Inst {
    match end
    case Returns => i.(ctx := Gone)
    case Yields(tag, payload, ty, optional) =>
      i.(state := Yielding(User(tag, payload), UserTy(ty)), ctx := AwaitVal(UserTy(ty), optional))
    case Blocks(id, tag) =>
      if isAsync then i.(state := Yielding(Future(id, tag), ResumeValTy), ctx := AwaitFuture(id, tag)).Note(Blocked(id))
      else i.(state := Terminating, ctx := Gone)
    case Expires => i.(state := State.BoundExpired, ctx := AtBound)
    case Terminates | Cancelled => i.(state := Terminating, ctx := Gone)
    case Faults(fatal) => i.(state := Faulted(fatal), ctx := Gone)
  }

  /** The compiled code adds what it counts to `instruction_count_adj`. */
  function Count(i: Inst, n: nat): Inst {
    i.(counter := i.counter.(adj := Wrap(i.counter.adj + n))).Note(Counted(n))
  }

  function GuestRuns(i: Inst, isAsync: bool, s: Slice): Inst {
    var woken := if s.end.Cancelled? && i.ctx.Fresh? then i.(state := Terminating, ctx := Gone) else Awaken(i);
    if woken.state.Terminating? then woken else Conclude(Count(woken, s.counted), isAsync, s.end)
  }

  // ---- The host side ----

  predicate MayEnter(i: Inst) {
    && i.entrypoint.Some?
    && (|| i.state.Ready?
        || (i.state.NotStarted? && i.entrypoint.value.isStart)
        || (i.state.Faulted? && !i.state.fatal)
        || i.state.Yielded?
        || i.state.BoundExpired?)
  }

  /** A fresh kill state unless the guest is merely suspended. */
  function Settle(i: Inst): Inst {
    if i.state.Yielding? || i.state.BoundExpired? then i else i.(kill := i.kill + 1)
  }

  /** Taking the result out of the state the guest left behind. */
  function TakeResult(i: Inst, s: Slice): (Inst, Outcome) {
    var t := Settle(i);
    match i.state
    case Running(_) => (t.(state := Ready), Returned)
    case Terminating => (t.(state := Terminated), Refused(RuntimeTerminated))
    case Yielding(val, expecting) => (t.(state := Yielded(expecting)), YieldedVal(val))
    case Faulted(fatal) =>
      if s.addrKnown then (t, Refused(RuntimeFault))
      else (t.(state := Transitioning), Refused(AddressError))
    case BoundExpired => (t, Expired)
    case _ => (t.(state := Transitioning).Note(Impossible), Refused(Unreached))
  }

  function OneSlice(i: Inst, isAsync: bool, s: Slice): (Inst, Outcome)
    requires MayEnter(i)
  {
    var isStart := i.entrypoint.value.isStart;
    var running := i.(state := Running(isAsync));
    if s.ready then TakeResult(GuestRuns(running, isAsync, s), s)
    else
      (running.(state := if isStart then NotStarted else Ready).Note(SetupFailed(isStart, !i.ctx.Fresh?)),
       Refused(SetupError))
  }

  /** Entering in any other state fails an assertion, which the history records as `Impossible`. */
  function SwapAndReturn(i: Inst, isAsync: bool, s: Slice): (Inst, Outcome) {
    if !MayEnter(i) then (i.Note(Impossible), Refused(Unreached))
    else
      var (t, o) := OneSlice(i, isAsync, s);
      (t.Note(Reported(o)), o)
  }

  /** `None` is no bound. */
  function Delta(bound: Option<nat>): nat {
    if bound.Some? then bound.value else MAX
  }

  predicate BoundOk(bound: Option<nat>) { Delta(bound) <= MAX }

  function SetBound(i: Inst, bound: Option<nat>): Inst
    requires BoundOk(bound)
  {
    i.(counter := SetBoundDelta(i.counter, Delta(bound)))
  }

  /** `set_instruction_count_and_bound`, for numbers that fit an `i64`. */
  function SetCount(i: Inst, count: nat, bound: nat): Inst
    requires count <= MAX && bound <= MAX
  {
    i.(counter := Counter(count - bound, bound)).Note(CountSet(count))
  }

  /** `argsOk`: the arguments match the signature; `ctxOk`: the guest stack can be set up. */
  datatype Call = Call(func: Handle, argsOk: bool, ctxOk: bool)

  function RunFunc(i: Inst, call: Call, isAsync: bool, bound: Option<nat>, s: Slice): (Inst, Outcome)
    requires BoundOk(bound)
  {
    if i.state.NotStarted? && !call.func.isStart then (i, Refused(NeedsStart))
    else if !(i.state.Ready? || i.state.NotStarted? || (i.state.Faulted? && !i.state.fatal)) then
      (i, Refused(InvalidArgument))
    else if call.func.ptr == 0 || !call.argsOk then (i, Refused(InvalidArgument))
    else
      var t := SetBound(i.(entrypoint := Some(call.func)), bound);
      if !call.ctxOk then (t, Refused(ContextError))
      else SwapAndReturn(t.(ctx := Fresh(call.func)), isAsync, s)
  }

  function ResumeWithVal(i: Inst, val: Value, isAsync: bool, bound: Option<nat>, s: Slice): (Inst, Outcome)
    requires BoundOk(bound)
  {
    if !i.state.Yielded? || i.state.expecting != TypeOf(val) then (i, Refused(InvalidArgument))
    else SwapAndReturn(SetBound(i.(resumed := Some(val)), bound), isAsync, s)
  }

  function ResumeBounded(i: Inst, bound: nat, s: Slice): (Inst, Outcome)
    requires bound <= MAX
  {
    if !i.state.BoundExpired? then (i, Refused(InvalidArgument))
    else SwapAndReturn(SetBound(i, Some(bound)), true, s)
  }

  function Reset(i: Inst, heapOk: bool): (Inst, Outcome) {
    if !heapOk then (i, Refused(ResetError))
    else (i.(state := if i.hasStart then NotStarted else Ready, kill := i.kill + 1).Note(WasReset), Returned)
  }

  /** A yield of the start function is not reported. */
  function RunStart(i: Inst, call: Call, s: Slice): (Inst, Outcome)
    requires call.func.isStart
  {
    if !i.hasStart then (i, Returned)
    else if !i.state.NotStarted? then (i, Refused(StartAlreadyRun))
    else
      var (t, o) := RunFunc(i, call, false, None, s);
      (t, if o.Refused? then o else Returned)
  }

  // ---- The async run loop ----

  /** One turn of the loop: the slice, and what the future it blocked on comes to, if the caller keeps
      polling that long. */
  datatype Turn = Turn(slice: Slice, output: Option<int>)

  datatype AsyncResult = Complete | Failed(error: Error) | Dropped | Panicked

  /** Resume with the awaited output, resume with a new bound, or enter `func`. */
  function OneTurn(i: Inst, call: Call, bound: Option<nat>, resumeVal: Option<Value>, s: Slice): (Inst, Outcome)
    requires BoundOk(bound)
    requires (i.state.Yielded? ==> resumeVal.Some?) && (i.state.BoundExpired? ==> bound.Some?)
  {
    if i.state.Yielded? then ResumeWithVal(i, resumeVal.value, true, bound, s)
    else if i.state.BoundExpired? then ResumeBounded(i, bound.value, s)
    else RunFunc(i, call, true, bound, s)
  }

  /** `resumeVal` is the output of the last awaited future; with no turns left the run has been dropped. */
  function AsyncLoop(i: Inst, call: Call, bound: Option<nat>, resumeVal: Option<Value>, turns: seq<Turn>)
    : (Inst, AsyncResult)
    requires BoundOk(bound)
    decreases |turns|
  {
    if turns == [] then (i, Dropped)
    else if i.state.Yielded? && resumeVal.None? then (i, Panicked)
    else if i.state.BoundExpired? && bound.None? then (i, Panicked)
    else
      var turn := turns[0];
      var (t, o) := OneTurn(i, call, bound, resumeVal, turn.slice);
      var kept := if i.state.Yielded? then None else resumeVal;
      match o
      case Returned => (t, Complete)
      case Refused(e) => (t, Failed(e))
      case Expired => AsyncLoop(t, call, bound, kept, turns[1..])
      case YieldedVal(v) =>
        if !v.Future? then (t, Failed(Unsupported))
        else if turn.output.None? then (t, Dropped)
        else AsyncLoop(t, call, bound, Some(ResumeVal(v.id, v.tag, turn.output.value)), turns[1..])
  }

  function RunAsync(i: Inst, call: Call, bound: Option<nat>, turns: seq<Turn>): (Inst, AsyncResult)
    requires BoundOk(bound)
  {
    if i.state.Yielded? then (i, Failed(Unsupported)) else AsyncLoop(i, call, bound, None, turns)
  }

  function RunAsyncStart(i: Inst, call: Call, bound: Option<nat>, turns: seq<Turn>): (Inst, AsyncResult)
    requires BoundOk(bound) && call.func.isStart
  {
    if !i.state.NotStarted? then (i, Failed(StartAlreadyRun))
    else if !i.hasStart then (i, Complete)
    else RunAsync(i, call, bound, turns)
  }

  function New(hasStart: bool): Inst {
    Inst(hasStart, if hasStart then NotStarted else Ready, 1, None, None, Counter(0, 0), Gone, Then(Nothing, WasReset))
  }
}
