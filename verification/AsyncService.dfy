/** From the source program to the end of an async run: an instance whose slices are those of compiled code
    comes to the end the source program comes to, with its result and its count. */
module AsyncService {
  import opened Basics
  import opened Int64
  import opened Wasm
  import opened Instrumentation
  import opened Target
  import opened ExactCount
  import opened Counting
  import opened Slices
  import opened SliceTheorems
  import opened Service
  import S = InstanceState
  import H = InstanceHistory
  import R = InstanceRuns
  import E = InstanceEnds
  import F = InstanceFutures

  // ---- The slices of compiled code, as an instance sees them ----

  /** How the slice that left `e` ended. */
  function EndOf<D>(e: Machine<D>): S.GuestEnd {
    match e.mode
    case Finished => S.Returns
    case BoundExpired => S.Expires
    case _ => S.Faults(false)
  }

  /** The slice from counter `m` to the stopped machine `e`. */
  function CompiledSlice<D>(m: Counter, e: Machine<D>): S.Slice {
    S.Slice(true, (e.mem.adj - m.adj) % MODULUS, EndOf(e), true)
  }

  /** The guest stops in `Coast(g, code, m, n)`. If its bound has expired there, it is resumed with the same
      bound, and the rest of the turns are those that follow; else this is the last one and leaves `e`. */
  ghost predicate CompiledTurns<D>(
      g: Guest<D>, code: seq<Compiled>, m: Machine<D>, delta: nat, turns: seq<S.Turn>, e: Machine<D>)
    decreases |turns|
  {
    turns != [] && exists n: nat :: StopsAt(g, code, m, n, delta, turns, e)
  }

  ghost predicate StopsAt<D>(
      g: Guest<D>, code: seq<Compiled>, m: Machine<D>, n: nat, delta: nat, turns: seq<S.Turn>, e: Machine<D>)
    requires turns != []
    decreases |turns|, 0
  {
    var p := Coast(g, code, m, n);
    && !Live(p)
    && turns[0] == S.Turn(CompiledSlice(m.mem, p), None)
    && if p.mode.BoundExpired? then CompiledTurns(g, code, Advance(g, code, p, Rebound(delta)), delta, turns[1..], e)
       else turns[1..] == [] && e == p
  }

  // ---- One slice on both sides ----

  lemma CompiledSliceCounts<D>(m: Counter, e: Machine<D>)
    requires e.mem.bound == m.bound
    ensures m.(adj := Wrap(m.adj + CompiledSlice(m, e).counted)) == e.mem
  {
  }

  /** One turn of the loop with a slice of compiled code: the instance is left with the counter of the stopped
      machine, and the host is told how it stopped. */
  lemma TurnFollowsCode<D>(
      g: Guest<D>, code: seq<Compiled>, m: Machine<D>, n: nat, delta: nat, i: S.Inst, call: S.Call, v: Option<S.Value>)
    requires delta <= MAX && R.AtHead(i, call, v) && F.Accepts(i, call, Some(delta)) && !i.state.Yielded?
    requires m.mem == SetBoundDelta(i.counter, delta) && !Live(Coast(g, code, m, n))
    ensures var p := Coast(g, code, m, n);
            var (t, o) := S.OneTurn(i, call, Some(delta), v, CompiledSlice(m.mem, p));
            && t.counter == p.mem && H.Inv(t)
            && (p.mode.BoundExpired? ==> o == S.Expired && t.state.BoundExpired?)
            && (p.mode.Finished? ==> o == S.Returned)
            && (p.mode.Faulted? ==> o == S.Refused(S.RuntimeFault))
  {
    hide Coast, H.Inv, H.Enterable, H.Books, S.OneTurn, S.SwapAndReturn, S.MayEnter, F.Accepts, R.AtHead, SetBoundDelta;
    var p := Coast(g, code, m, n);
    var s := CompiledSlice(m.mem, p);
    var c := F.Prepared(i, call, Some(delta), v);
    F.PreparedIsFine(i, call, Some(delta), v);
    F.TurnIsSwap(i, call, Some(delta), v, s);
    PreparedCounter(i, call, delta, v);
    E.SwapLeaves(c, true, s);
    H.SwapKeeps(c, true, s);
    CoastRetires(g, code, m, n);
    CompiledSliceCounts(m.mem, p);
  }

  lemma PreparedCounter(i: S.Inst, call: S.Call, delta: nat, v: Option<S.Value>)
    requires delta <= MAX
    ensures F.Prepared(i, call, Some(delta), v).counter == SetBoundDelta(i.counter, delta)
  {
  }

  // ---- Whole runs ----

  /** How the run ends when the machine ends in `e`. */
  predicate EndsAs<D>(t: S.Inst, o: S.AsyncResult, e: Machine<D>) {
    && t.counter == e.mem
    && (e.mode.Finished? ==> o == S.Complete)
    && (e.mode.Faulted? ==> o == S.Failed(S.RuntimeFault))
  }

  lemma {:induction false} LoopFollowsCode<D>(
      g: Guest<D>, code: seq<Compiled>, m: Machine<D>, delta: nat, turns: seq<S.Turn>, e: Machine<D>,
      i: S.Inst, call: S.Call, v: Option<S.Value>)
    requires CompiledTurns(g, code, m, delta, turns, e)
    requires delta <= MAX && R.AtHead(i, call, v) && F.Accepts(i, call, Some(delta)) && !i.state.Yielded?
    requires m.mem == SetBoundDelta(i.counter, delta)
    ensures var (t, o) := S.AsyncLoop(i, call, Some(delta), v, turns); EndsAs(t, o, e)
    decreases |turns|
  {
    var n: nat :| StopsAt(g, code, m, n, delta, turns, e);
    var p := Coast(g, code, m, n);
    TurnFollowsCode(g, code, m, n, delta, i, call, v);
    hide Coast, H.Inv, S.OneTurn, SetBoundDelta;
    if p.mode.BoundExpired? {
      var t := S.OneTurn(i, call, Some(delta), v, turns[0].slice).0;
      LoopFollowsCode(g, code, Advance(g, code, p, Rebound(delta)), delta, turns[1..], e, t, call, v);
    }
  }

  // ---- The turns of a guest ----

  lemma SameStop<D>(g: Guest<D>, code: seq<Compiled>, m: Machine<D>, n: nat, n': nat)
    requires !Live(Coast(g, code, m, n)) && !Live(Coast(g, code, m, n'))
    ensures Coast(g, code, m, n) == Coast(g, code, m, n')
  {
    if n <= n' {
      StaysStopped(g, code, m, n, n');
    } else {
      StaysStopped(g, code, m, n', n);
    }
  }

  /** A machine and a bound have one list of turns, and one end. */
  lemma {:induction false} TurnsAreUnique<D>(
      g: Guest<D>, code: seq<Compiled>, m: Machine<D>, delta: nat,
      turns: seq<S.Turn>, e: Machine<D>, turns': seq<S.Turn>, e': Machine<D>)
    requires CompiledTurns(g, code, m, delta, turns, e) && CompiledTurns(g, code, m, delta, turns', e')
    ensures turns == turns' && e == e'
    decreases |turns|
  {
    var n: nat :| StopsAt(g, code, m, n, delta, turns, e);
    var n': nat :| StopsAt(g, code, m, n', delta, turns', e');
    SameStop(g, code, m, n, n');
    hide Coast, Live, Advance, CompiledSlice;
    if Coast(g, code, m, n).mode.BoundExpired? {
      var next := Advance(g, code, Coast(g, code, m, n), Rebound(delta));
      TurnsAreUnique(g, code, next, delta, turns[1..], e, turns'[1..], e');
    }
    assert turns == [turns[0]] + turns[1..] && turns' == [turns'[0]] + turns'[1..];
  }

  /** The host that sets the same bound every time. */
  function Always(delta: nat): nat -> nat { _ => delta }

  /** The guest served with the same bound over and over, seen from its first event. */
  lemma {:induction false} ServeFront<D>(g: Guest<D>, code: seq<Compiled>, m: Machine<D>, delta: nat, k: nat)
    ensures Serve(g, code, m, Always(delta), k + 1) ==
            Serve(g, code, Advance(g, code, m, Serving(m, delta)), Always(delta), k)
  {
    hide Advance, Serving;
    if k > 0 {
      ServeFront(g, code, m, delta, k - 1);
    }
  }

  /** The first turn of a slice that is one step longer. */
  lemma OneStepLonger<D>(
      g: Guest<D>, code: seq<Compiled>, m: Machine<D>, delta: nat, turns: seq<S.Turn>, e: Machine<D>)
    returns (longer: seq<S.Turn>)
    requires CompiledTurns(g, code, Advance(g, code, m, Go), delta, turns, e)
    ensures CompiledTurns(g, code, m, delta, longer, e)
  {
    var m1 := Advance(g, code, m, Go);
    var n: nat :| StopsAt(g, code, m1, n, delta, turns, e);
    var p := Coast(g, code, m1, n);
    CoastFront(g, code, m, n);
    longer := [S.Turn(CompiledSlice(m.mem, p), None)] + turns[1..];
    hide Coast, Live, Advance, CompiledSlice;
    assert longer[1..] == turns[1..];
    assert StopsAt(g, code, m, n + 1, delta, longer, e);
  }

  lemma {:induction false} CoastFront<D>(g: Guest<D>, code: seq<Compiled>, m: Machine<D>, n: nat)
    ensures Coast(g, code, m, n + 1) == Coast(g, code, Advance(g, code, m, Go), n)
  {
    hide Advance;
    if n > 0 {
      CoastFront(g, code, m, n - 1);
    }
  }

  /** If serving a live guest comes to an end, its turns do, in the same machine. */
  lemma {:induction false} TurnsExist<D>(g: Guest<D>, code: seq<Compiled>, m: Machine<D>, delta: nat, k: nat)
    returns (turns: seq<S.Turn>)
    requires Live(m) && delta <= MAX && !Unfinished(Serve(g, code, m, Always(delta), k))
    ensures CompiledTurns(g, code, m, delta, turns, Serve(g, code, m, Always(delta), k))
    decreases k
  {
    hide Advance, Coast, CompiledTurns;
    var m1 := Advance(g, code, m, Go);
    var e := Serve(g, code, m, Always(delta), k);
    assert k > 0;
    hide Serve, Always;
    ServeFront(g, code, m, delta, k - 1);
    if Live(m1) {
      turns := TurnsExist(g, code, m1, delta, k - 1);
      turns := OneStepLonger(g, code, m, delta, turns, e);
    } else {
      turns := TurnsFromStop(g, code, m, m1, delta, k - 1);
    }
  }

  lemma {:induction false} StoppedServes<D>(g: Guest<D>, code: seq<Compiled>, m: Machine<D>, delta: nat, k: nat)
    requires !Unfinished(m)
    ensures Serve(g, code, m, Always(delta), k) == m
  {
    if k > 0 {
      StoppedServes(g, code, m, delta, k - 1);
    }
  }

  lemma TurnsFromStop<D>(g: Guest<D>, code: seq<Compiled>, m: Machine<D>, m1: Machine<D>, delta: nat, k: nat)
    returns (turns: seq<S.Turn>)
    requires m1 == Advance(g, code, m, Go) && !Live(m1)
    requires delta <= MAX && !Unfinished(Serve(g, code, m1, Always(delta), k))
    ensures CompiledTurns(g, code, m, delta, turns, Serve(g, code, m1, Always(delta), k))
    decreases k
  {
    hide Coast, Advance, CompiledTurns, CompiledSlice;
    var e := Serve(g, code, m1, Always(delta), k);
    if !m1.mode.BoundExpired? {
      StoppedServes(g, code, m1, delta, k);
      turns := [S.Turn(CompiledSlice(m.mem, m1), None)];
      OneTurnLeft(g, code, m, m1, delta, turns, e);
    } else {
      assert k > 0;
      ServeFront(g, code, m1, delta, k - 1);
      ResumedIsLive(g, code, m1, delta);
      hide Serve, Always, Unfinished, Live;
      var more := TurnsExist(g, code, Advance(g, code, m1, Rebound(delta)), delta, k - 1);
      turns := [S.Turn(CompiledSlice(m.mem, m1), None)] + more;
      assert turns[1..] == more;
      OneTurnLeft(g, code, m, m1, delta, turns, e);
    }
  }

  lemma ResumedIsLive<D>(g: Guest<D>, code: seq<Compiled>, m: Machine<D>, delta: nat)
    requires m.mode.BoundExpired? && delta <= MAX
    ensures Serving(m, delta) == Rebound(delta) && Live(Advance(g, code, m, Rebound(delta)))
  {
  }

  lemma OneTurnLeft<D>(
      g: Guest<D>, code: seq<Compiled>, m: Machine<D>, m1: Machine<D>, delta: nat, turns: seq<S.Turn>, e: Machine<D>)
    requires m1 == Advance(g, code, m, Go) && !Live(m1)
    requires turns != [] && turns[0] == S.Turn(CompiledSlice(m.mem, m1), None)
    requires if m1.mode.BoundExpired?
             then CompiledTurns(g, code, Advance(g, code, m1, Rebound(delta)), delta, turns[1..], e)
             else turns[1..] == [] && e == m1
    ensures CompiledTurns(g, code, m, delta, turns, e)
  {
    CoastFront(g, code, m, 0);
    hide Advance, Live, CompiledSlice;
    assert Coast(g, code, m1, 0) == m1;
    assert StopsAt(g, code, m, 1, delta, turns, e);
  }

  // ---- End to end ----

  /** An async run on an instance that rests unsuspended, with a bound of `delta` and slices as compiled code
      makes them: there is one list of turns for it, with which it completes if the source program finishes,
      the instance counting what the source program counts and the guest having its result; and with which it
      fails with a runtime fault if the source program traps. */
  lemma AsyncRunServes<D>(
      g: Guest<D>, code: seq<Compiled>, f: nat, data: D, count: nat, delta: nat, n: nat, i: S.Inst, call: S.Call)
    returns (turns: seq<S.Turn>, e: Machine<D>)
    requires delta <= MAX && Ready(g, code, f, SetBoundDelta(i.counter, delta), count)
    requires H.Inv(i) && !R.IsSuspended(i) && F.Accepts(i, call, Some(delta))
    requires call.func.isStart ==> i.state.NotStarted?
    requires var r := Steps(g, Start(f, data, count), n); r.status.Done? || r.status.Trapped?
    ensures var m := Boot(f, data, SetBoundDelta(i.counter, delta));
            && CompiledTurns(g, code, m, delta, turns, e)
            && forall turns', e' :: CompiledTurns(g, code, m, delta, turns', e') ==> turns' == turns && e' == e
    ensures var (t, o) := S.RunAsync(i, call, Some(delta), turns);
            var r := Steps(g, Start(f, data, count), n);
            && (r.status.Done? ==> o == S.Complete && e.data == r.data && t.counter.Total() == Wrap(r.count))
            && (r.status.Trapped? ==> o == S.Failed(S.RuntimeFault))
  {
    var mem := SetBoundDelta(i.counter, delta);
    var m, k := Boot(f, data, mem), (FAR + 1) * n + FAR + 1;
    e := Serve(g, code, m, Always(delta), k);
    hide Serve, Step, Ready, H.Inv, F.Accepts, SetBoundDelta, S.AsyncLoop, Start, Rel, CompiledTurns;
    ServiceSettles(g, code, f, data, mem, count, Always(delta), n, k);
    NothingLeft(g, code, e, Steps(g, Start(f, data, count), n));
    turns := TurnsExist(g, code, m, delta, k);
    forall turns', e' | CompiledTurns(g, code, m, delta, turns', e')
      ensures turns' == turns && e' == e
    {
      TurnsAreUnique(g, code, m, delta, turns', e', turns, e);
    }
    LoopFollowsCode(g, code, m, delta, turns, e, i, call, None);
  }
}
