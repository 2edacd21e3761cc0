/** What holds of an instance over every sequence of calls and everything its guest may do. */
module InstanceHistory {
  import opened Basics
  import opened Int64
  import opened InstanceState

  // ---- Reading a history ----

  /** The slice left the guest as it was, to be entered or resumed later: it yielded, its bound expired, or it
      never got as far as the guest. */
  predicate Suspends(o: Outcome) {
    o.YieldedVal? || o.Expired? || o == Refused(SetupError)
  }

  /** What is documented to replace the kill state: a reset, and a slice after which the guest is done. */
  predicate Replaces(e: Event) {
    e.WasReset? || (e.Reported? && !Suspends(e.outcome))
  }

  function Replacements(h: History): nat {
    match h
    case Nothing => 0
    case Then(b, e) => Replacements(b) + if Replaces(e) then 1 else 0
  }

  /** What all slices counted, on top of the count the host set last. */
  function Tally(h: History): nat {
    match h
    case Nothing => 0
    case Then(b, e) => if e.CountSet? then e.n else Tally(b) + if e.Counted? then e.n else 0
  }

  /** The host was told that a fault address could not be looked up, since the last reset. */
  predicate Stuck(h: History) {
    match h
    case Nothing => false
    case Then(b, e) => e == Reported(Refused(AddressError)) || (!e.WasReset? && Stuck(b))
  }

  /** How often the start function was entered since the last reset. */
  function StartEntries(h: History): nat {
    match h
    case Nothing => 0
    case Then(b, e) => if e.WasReset? then 0 else StartEntries(b) + if e.Entered? && e.func.isStart then 1 else 0
  }

  /** How often a suspended start function was given up because setup failed, since the last reset. */
  function Abandoned(h: History): nat {
    match h
    case Nothing => 0
    case Then(b, e) => if e.WasReset? then 0 else Abandoned(b) + if e == SetupFailed(true, true) then 1 else 0
  }

  /** No other function was ever entered between a reset and the next entry of the start function. */
  predicate StartFirst(h: History) {
    match h
    case Nothing => true
    case Then(b, e) => StartFirst(b) && (e.Entered? && !e.func.isStart ==> StartEntries(b) > 0)
  }

  /** None of the failures the runtime believes impossible has happened. */
  predicate Clean(h: History) {
    match h
    case Nothing => true
    case Then(b, e) => Clean(b) && !e.TypeMismatch? && !e.BrokenPromise? && !e.BadContext? && !e.Impossible?
  }

  /** The future whose output the guest is waiting for. */
  function Outstanding(h: History): Option<nat> {
    match h
    case Nothing => None
    case Then(b, e) =>
      if e.Blocked? then Some(e.id)
      else if (e.Delivered? && e.val.ResumeVal?) || e.WasReset? || e.Entered? then None
      else Outstanding(b)
  }

  /** Every output of a future that was delivered was that of the future last blocked on, and was delivered once. */
  predicate Paired(h: History) {
    match h
    case Nothing => true
    case Then(b, e) => Paired(b) && (e.Delivered? && e.val.ResumeVal? ==> Outstanding(b) == Some(e.val.id))
  }

  // ---- The invariant ----

  predicate Resting(s: State) {
    s.NotStarted? || s.Ready? || s.Yielded? || s.BoundExpired? || s.Faulted? || s.Terminated?
  }

  /** The instance rests in a proper state, except after a lost fault address. */
  predicate Lifecycle(i: Inst) {
    (Resting(i.state) && !Stuck(i.log)) || (i.state.Transitioning? && Stuck(i.log))
  }

  /** A suspended guest waits for exactly the type the state says it expects. */
  predicate Suspended(i: Inst) {
    && (i.state.Yielded? || i.state.BoundExpired? ==>
        && i.entrypoint.Some?
        && (i.entrypoint.value.isStart ==> i.hasStart && StartEntries(i.log) == Abandoned(i.log) + 1))
    && (i.state.Yielded? ==>
        match i.ctx
        case AwaitVal(ty, _) => ty.UserTy? && i.state.expecting == ty
        case AwaitFuture(id, _) => i.state.expecting == ResumeValTy && Outstanding(i.log) == Some(id)
        case _ => false)
    && (i.state.BoundExpired? ==> i.ctx.AtBound?)
  }

  /** States a module with a start function only reaches through it. */
  predicate Started(s: State) {
    s.Ready? || s.Faulted? || s.Yielded? || s.BoundExpired?
  }

  /** Nothing runs before the start function, which is entered once more only for every time a
      suspended start function was given up. */
  predicate StartDiscipline(i: Inst) {
    && Abandoned(i.log) <= StartEntries(i.log) <= Abandoned(i.log) + 1
    && (!i.hasStart ==> StartEntries(i.log) == 0)
    && (i.state.NotStarted? ==> i.hasStart && StartEntries(i.log) == Abandoned(i.log))
    && (i.hasStart ==>
        && StartFirst(i.log)
        && (Started(i.state) ==> StartEntries(i.log) == Abandoned(i.log) + 1))
  }

  predicate Accounts(i: Inst) {
    && i.kill == Replacements(i.log)
    && i.counter.Total() == Wrap(Tally(i.log))
  }

  predicate Inv(i: Inst) {
    && Lifecycle(i) && Suspended(i) && StartDiscipline(i) && Accounts(i)
    && Clean(i.log) && Paired(i.log)
  }

  // ---- One slice ----

  /** The guest context is ready to be swapped in: a fresh entry, or what it awaits has been provided. */
  predicate Enterable(i: Inst) {
    && i.entrypoint.Some? && (i.entrypoint.value.isStart ==> i.hasStart)
    && !Stuck(i.log)
    && (!i.ctx.Fresh? && i.entrypoint.value.isStart ==> StartEntries(i.log) == Abandoned(i.log) + 1)
    && match i.ctx
       case Fresh(func) =>
         && func == i.entrypoint.value
         && (func.isStart ==> StartEntries(i.log) == Abandoned(i.log))
         && (i.hasStart && !func.isStart ==> StartEntries(i.log) == Abandoned(i.log) + 1)
       case AtBound => i.hasStart ==> StartEntries(i.log) == Abandoned(i.log) + 1
       case AwaitVal(ty, _) =>
         && (i.hasStart ==> StartEntries(i.log) == Abandoned(i.log) + 1)
         && ty.UserTy? && i.resumed.Some? && TypeOf(i.resumed.value) == ty
       case AwaitFuture(id, tag) =>
         && (i.hasStart ==> StartEntries(i.log) == Abandoned(i.log) + 1)
         && i.resumed.Some? && i.resumed.value.ResumeVal? && i.resumed.value.id == id && i.resumed.value.tag == tag
         && Outstanding(i.log) == Some(id)
       case Gone => false
  }

  /** The parts of the invariant that no state change touches. */
  predicate Books(i: Inst) {
    && Abandoned(i.log) <= StartEntries(i.log) <= Abandoned(i.log) + 1
    && (!i.hasStart ==> StartEntries(i.log) == 0)
    && (i.hasStart ==> StartFirst(i.log))
    && Accounts(i) && Clean(i.log) && Paired(i.log)
  }

  lemma CountedKeepsTotal(c: Counter, n: nat, tally: nat)
    requires c.Total() == Wrap(tally)
    ensures c.(adj := Wrap(c.adj + n)).Total() == Wrap(tally + n)
  {
    WrapShift(c.bound + c.adj, tally, n);
    WrapAbsorbs(c.adj + n, c.bound);
    assert c.bound + Wrap(c.adj + n) == Wrap(c.adj + n) + c.bound;
    assert c.adj + n + c.bound == c.bound + c.adj + n;
  }

  /** The guest is awake and has been entered properly. */
  predicate Awake(i: Inst) {
    && Books(i) && !Stuck(i.log)
    && i.entrypoint.Some?
    && (i.entrypoint.value.isStart ==> i.hasStart && StartEntries(i.log) == Abandoned(i.log) + 1)
    && (i.hasStart ==> StartEntries(i.log) == Abandoned(i.log) + 1)
  }

  lemma Awakens(i: Inst)
    requires Enterable(i) && Books(i) && i.state.Running?
    ensures Awake(Awaken(i)) && Awaken(i).state == i.state
  {
  }

  /** Counting concerns only the tally. */
  lemma CountedReads(h: History, n: nat)
    ensures var h' := Then(h, Counted(n));
            && StartEntries(h') == StartEntries(h) && Abandoned(h') == Abandoned(h) && StartFirst(h') == StartFirst(h)
            && Stuck(h') == Stuck(h) && Clean(h') == Clean(h) && Paired(h') == Paired(h)
            && Replacements(h') == Replacements(h) && Tally(h') == Tally(h) + n
  {
  }

  lemma CountKeeps(i: Inst, n: nat)
    requires Awake(i)
    ensures Awake(Count(i, n))
  {
    CountedReads(i.log, n);
    hide StartEntries, Abandoned, StartFirst, Stuck, Clean, Paired, Replacements, Tally, Wrap;
    CountedKeepsTotal(i.counter, n, Tally(i.log));
  }

  /** How the guest may leave its instance when it swaps back. */
  predicate Left(i: Inst) {
    && Books(i) && !Stuck(i.log)
    && i.entrypoint.Some? && (i.entrypoint.value.isStart ==> i.hasStart)
    && (|| i.state.Terminating?
        || ((i.hasStart ==> StartEntries(i.log) == Abandoned(i.log) + 1) &&
            (i.entrypoint.value.isStart ==> StartEntries(i.log) == Abandoned(i.log) + 1) &&
            match i.state
            case Running(_) => true
            case Faulted(_) => true
            case BoundExpired => i.ctx.AtBound?
            case Yielding(val, expecting) =>
              (match i.ctx
               case AwaitVal(ty, _) => ty.UserTy? && expecting == ty && val.User?
               case AwaitFuture(id, tag) =>
                 val == Future(id, tag) && expecting == ResumeValTy && Outstanding(i.log) == Some(id)
               case _ => false)
            case _ => false))
  }

  lemma ConcludeLeaves(i: Inst, isAsync: bool, end: GuestEnd)
    requires Awake(i) && i.state.Running?
    ensures Left(Conclude(i, isAsync, end))
  {
  }

  lemma GuestLeaves(i: Inst, isAsync: bool, s: Slice)
    requires Enterable(i) && Books(i) && i.state.Running?
    ensures Left(GuestRuns(i, isAsync, s))
  {
    Awakens(i);
    CountKeeps(Awaken(i), s.counted);
    ConcludeLeaves(Count(Awaken(i), s.counted), isAsync, s.end);
  }

  /** What a suspension leaves for the loop to act on. */
  predicate Follows(t: Inst, o: Outcome) {
    && (o.Expired? ==> t.state.BoundExpired?)
    && (o.YieldedVal? ==> t.state.Yielded?)
    && (o.YieldedVal? && o.val.Future? ==> t.ctx == AwaitFuture(o.val.id, o.val.tag))
  }

  lemma TakeResultKeeps(i: Inst, s: Slice)
    requires Left(i)
    ensures var (t, o) := TakeResult(i, s); Inv(t.Note(Reported(o))) && Follows(t, o)
  {
  }

  lemma SwapKeeps(i: Inst, isAsync: bool, s: Slice)
    requires Enterable(i) && Books(i) && MayEnter(i)
    ensures var (t, o) := SwapAndReturn(i, isAsync, s); Inv(t) && Follows(t, o)
  {
    var running := i.(state := Running(isAsync));
    if s.ready {
      GuestLeaves(running, isAsync, s);
      TakeResultKeeps(GuestRuns(running, isAsync, s), s);
    }
  }

  // ---- Calls ----

  lemma BoundKeepsBooks(i: Inst, bound: Option<nat>)
    requires Books(i) && BoundOk(bound)
    ensures Books(SetBound(i, bound))
  {
  }

  lemma RunFuncKeeps(i: Inst, call: Call, isAsync: bool, bound: Option<nat>, s: Slice)
    requires Inv(i) && BoundOk(bound)
    requires call.func.isStart ==> i.state.NotStarted?
    ensures var (t, o) := RunFunc(i, call, isAsync, bound, s); Inv(t) && Follows(t, o)
  {
    var c := i.(entrypoint := Some(call.func));
    if i.state.Ready? || i.state.NotStarted? || (i.state.Faulted? && !i.state.fatal) {
      BoundKeepsBooks(c, bound);
      if call.func.isStart || !i.state.NotStarted? {
        SwapKeeps(SetBound(c, bound).(ctx := Fresh(call.func)), isAsync, s);
      }
    }
  }

  /** The value fits the guest that waits for it: a user's value, or the awaited future's output. */
  predicate Fits(i: Inst, val: Value) {
    match val
    case User(_, _) => true
    case ResumeVal(id, tag, _) => i.ctx == AwaitFuture(id, tag)
    case Future(_, _) => false
  }

  lemma ResumeWithValKeeps(i: Inst, val: Value, isAsync: bool, bound: Option<nat>, s: Slice)
    requires Inv(i) && BoundOk(bound) && Fits(i, val)
    ensures var (t, o) := ResumeWithVal(i, val, isAsync, bound, s); Inv(t) && Follows(t, o)
  {
    if i.state.Yielded? && i.state.expecting == TypeOf(val) {
      var c := i.(resumed := Some(val));
      BoundKeepsBooks(c, bound);
      SwapKeeps(SetBound(c, bound), isAsync, s);
    }
  }

  lemma ResumeBoundedKeeps(i: Inst, bound: nat, s: Slice)
    requires Inv(i) && bound <= MAX
    ensures var (t, o) := ResumeBounded(i, bound, s); Inv(t) && Follows(t, o)
  {
    if i.state.BoundExpired? {
      BoundKeepsBooks(i, Some(bound));
      SwapKeeps(SetBound(i, Some(bound)), true, s);
    }
  }

  lemma ResetKeeps(i: Inst, heapOk: bool)
    requires Inv(i)
    ensures Inv(Reset(i, heapOk).0)
  {
  }

  lemma SetCountKeeps(i: Inst, count: nat, bound: nat)
    requires Inv(i) && count <= MAX && bound <= MAX
    ensures Inv(SetCount(i, count, bound))
  {
  }
}
