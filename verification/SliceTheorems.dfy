/** Whole slices: they end, and they end near the bound. */
module SliceTheorems {
  import opened Int64
  import opened Wasm
  import opened Instrumentation
  import opened CodeShape
  import opened Target
  import opened ExactCount
  import opened Counting
  import opened Slices

  /** The guest runs for `n` steps without the host moving the bound. */
  function Coast<D>(g: Guest<D>, code: seq<Compiled>, m: Machine<D>, n: nat): Machine<D> {
    if n == 0 then m else Advance(g, code, Coast(g, code, m, n - 1), Go)
  }

  /** Remaining budget and remaining code, in that order of weight. */
  function Potential<D>(code: seq<Compiled>, m: Machine<D>, budget: int, length: nat): int {
    Pending(code, m) + Times(if budget > 0 then budget else 0, length + 1)
  }

  /** The reference run beside the slice. */
  ghost function Beside<D>(g: Guest<D>, m: Machine<D>, r: Run<D>, m': Machine<D>): Run<D> {
    Steps(g, r, if m'.retired <= m.retired then 0 else m'.retired - m.retired)
  }

  lemma BesideSteps<D>(g: Guest<D>, m: Machine<D>, r: Run<D>, p: Machine<D>, p': Machine<D>)
    requires m.retired <= p.retired <= p'.retired <= p.retired + 1
    ensures Beside(g, m, r, p') == if p'.retired == p.retired then Beside(g, m, r, p) else Step(g, Beside(g, m, r, p))
  {
  }

  lemma {:induction false} StackLeftIsNat<D>(g: Guest<D>, code: seq<Compiled>, fs: seq<CallFrame>)
    requires forall i | 0 <= i < |fs| :: FrameOk(g, code, fs[i])
    ensures StackLeft(code, fs) >= 0
  {
    if fs != [] {
      StackLeftIsNat(g, code, fs[..|fs| - 1]);
      assert FrameOk(g, code, fs[|fs| - 1]);
    }
  }

  lemma PendingIsNat<D>(g: Guest<D>, code: seq<Compiled>, m: Machine<D>, r: Run<D>)
    requires Matches(g, code, m, r)
    ensures Pending(code, m) >= 0
  {
    forall i | 0 <= i < |m.frames|
      ensures FrameOk(g, code, m.frames[i])
    {
      assert Paired(g, code, m.frames[i], r.acts[i]);
    }
    StackLeftIsNat(g, code, m.frames);
  }

  lemma PotentialFalls(p: int, p': int, b: int, b': int, length: nat)
    requires (p' < p && b' <= b) || (0 <= b' < b && p' <= p + length)
    ensures p' + Times(if b' > 0 then b' else 0, length + 1) < p + Times(if b > 0 then b else 0, length + 1)
  {
    hide Times;
    var c, c' := if b > 0 then b else 0, if b' > 0 then b' else 0;
    if b' <= b && p' < p {
      TimesGrows(c', c, length + 1);
    } else {
      TimesSteps(c', length + 1);
      TimesGrows(c' + 1, c, length + 1);
    }
  }

  ghost predicate Settings<D>(g: Guest<D>, code: seq<Compiled>, length: nat, cost: nat) {
    Built(g, code) && Fits(code, length, cost) && Times(g.maxDepth, cost) <= MAX && length > 0
  }

  lemma OnlyTheHostRestarts<D>(g: Guest<D>, code: seq<Compiled>, m: Machine<D>)
    requires !Live(m)
    ensures Advance(g, code, m, Go) == m
  {
  }

  /** As long as the slice lasts its invariant holds and every step uses up potential. */
  lemma {:induction false} CoastInSlice<D>(
      g: Guest<D>, code: seq<Compiled>, m: Machine<D>, r: Run<D>, limit: int, n: nat, length: nat, cost: nat)
    requires Settings(g, code, length, cost) && InSlice(g, code, m, r, limit)
    ensures var m' := Coast(g, code, m, n);
            Live(m') ==>
              && m.retired <= m'.retired
              && InSlice(g, code, m', Beside(g, m, r, m'), limit)
              && Potential(code, m', limit - Beside(g, m, r, m').count, length) + n
                 <= Potential(code, m, limit - r.count, length)
  {
    hide Advance, InSlice, Potential, Step, Settings;
    if n > 0 {
      CoastInSlice(g, code, m, r, limit, n - 1, length, cost);
      var p := Coast(g, code, m, n - 1);
      var m' := Coast(g, code, m, n);
      if !Live(p) {
        OnlyTheHostRestarts(g, code, p);
      }
      if Live(m') {
        var q := Beside(g, m, r, p);
        SliceStep(g, code, p, q, limit, length, cost);
        BesideSteps(g, m, r, p, m');
      }
    }
  }

  lemma SliceStep<D>(g: Guest<D>, code: seq<Compiled>, m: Machine<D>, r: Run<D>, limit: int, length: nat, cost: nat)
    requires Settings(g, code, length, cost) && InSlice(g, code, m, r, limit)
    ensures var m' := Advance(g, code, m, Go);
            var r' := if m'.retired == m.retired then r else Step(g, r);
            Live(m') ==>
              && Live(m) && m.retired <= m'.retired <= m.retired + 1
              && InSlice(g, code, m', r', limit)
              && Potential(code, m', limit - r'.count, length) < Potential(code, m, limit - r.count, length)
              && (r'.count <= limit ||
                  r'.count + StackRest(g, code, m') <= r.count + StackRest(g, code, m))
  {
    hide Advance, InSlice, Step, Rel, StackRest, Pending, Fits, Built;
    SliceAdvances(g, code, m, r, limit, length, cost);
    InSliceIsLive(g, code, m, r, limit);
    Simulates(g, code, m, r, Go);
    var m' := Advance(g, code, m, Go);
    var r' := if m'.retired == m.retired then r else Step(g, r);
    if Live(m') {
      PotentialFalls(Pending(code, m), Pending(code, m'), limit - r.count, limit - r'.count, length);
    }
  }

  lemma {:induction false} StaysStopped<D>(g: Guest<D>, code: seq<Compiled>, m: Machine<D>, n: nat, k: nat)
    requires n <= k && !Live(Coast(g, code, m, n))
    ensures Coast(g, code, m, k) == Coast(g, code, m, n)
  {
    hide Advance, Live;
    if n < k {
      StaysStopped(g, code, m, n, k - 1);
      OnlyTheHostRestarts(g, code, Coast(g, code, m, k - 1));
    }
  }

  /** A slice is over after as many steps as its potential. */
  lemma SliceEnds<D>(
      g: Guest<D>, code: seq<Compiled>, m: Machine<D>, r: Run<D>, limit: int, n: nat, length: nat, cost: nat)
    requires Settings(g, code, length, cost) && InSlice(g, code, m, r, limit)
    requires n > Potential(code, m, limit - r.count, length)
    ensures !Live(Coast(g, code, m, n))
  {
    hide Coast, InSlice, Pending, Settings, Beside;
    CoastInSlice(g, code, m, r, limit, n, length, cost);
    var m' := Coast(g, code, m, n);
    if Live(m') {
      InSliceIsLive(g, code, m', Beside(g, m, r, m'), limit);
      PendingIsNat(g, code, m', Beside(g, m, r, m'));
    }
  }

  // ---- Where slices start ----

  lemma {:induction false} DepthHolds<D>(g: Guest<D>, code: seq<Compiled>, m: Machine<D>, es: seq<Event>)
    requires |m.frames| <= g.maxDepth
    ensures |Play(g, code, m, es).frames| <= g.maxDepth
  {
    if es != [] {
      DepthHolds(g, code, m, es[..|es| - 1]);
    }
  }

  /** The count at which a bound of `delta` set now expires. */
  ghost function LimitFrom<D>(g: Guest<D>, code: seq<Compiled>, m: Machine<D>, r: Run<D>, delta: nat): int
    requires Rel(g, code, m, r) && (m.mode.BoundExpired? || m.mode.Hosting?)
  {
    r.count + delta + if m.mode.BoundExpired? then PriceAt(code[m.Top().func], m.Top().at.pc) else 0
  }

  lemma LimitIsNear<D>(g: Guest<D>, code: seq<Compiled>, m: Machine<D>, r: Run<D>, delta: nat)
    requires Rel(g, code, m, r) && (m.mode.BoundExpired? || m.mode.Hosting?)
    ensures r.count + delta <= LimitFrom(g, code, m, r, delta) <= r.count + delta + 2
  {
  }

  lemma BoundSetTo(bound: i64, delta: nat, owed: int, count: int)
    requires Wrap(0 - delta + bound + owed) == Wrap(count)
    ensures Wrap(bound) == Wrap(count + delta - owed)
  {
  }

  /** Setting a bound starts a slice. */
  lemma ReboundStartsSlice<D>(
      g: Guest<D>, code: seq<Compiled>, m: Machine<D>, r: Run<D>, delta: nat, length: nat, cost: nat)
    requires Settings(g, code, length, cost) && Rel(g, code, m, r) && |m.frames| <= g.maxDepth
    requires (m.mode.BoundExpired? || m.mode.Hosting?) && delta <= MAX
    ensures InSlice(g, code, Advance(g, code, m, Rebound(delta)), r, LimitFrom(g, code, m, r, delta))
  {
    var m' := Advance(g, code, m, Rebound(delta));
    var limit := LimitFrom(g, code, m, r, delta);
    ReboundSimulates(g, code, m, r, delta);
    ReboundGates(g, code, m, r, delta);
    hide Rel, Fits, Built, Advance, LimitFrom, Gate, Level;
    BelowLimit(g, code, m', r, limit, length, cost);
  }

  lemma ReboundGates<D>(g: Guest<D>, code: seq<Compiled>, m: Machine<D>, r: Run<D>, delta: nat)
    requires Rel(g, code, m, r) && (m.mode.BoundExpired? || m.mode.Hosting?) && delta <= MAX
    requires Rel(g, code, Advance(g, code, m, Rebound(delta)), r)
    ensures var m', limit := Advance(g, code, m, Rebound(delta)), LimitFrom(g, code, m, r, delta);
            && Live(m') && m'.frames == m.frames && r.count <= limit
            && Wrap(m'.mem.bound) == Wrap(limit)
            && -MAX - 1 <= Level(g, code, m', r, limit)
            && (m'.mode.Going? ==> Gate(g, code, m'.Top(), m'.mem))
  {
    if m.mode.Hosting? {
      HostRebounds(g, code, m, r, delta);
    } else {
      ExpiredRebounds(g, code, m, r, delta);
    }
    hide Rel, LimitFrom, Advance, Gate, Level;
  }

  lemma HostRebounds<D>(g: Guest<D>, code: seq<Compiled>, m: Machine<D>, r: Run<D>, delta: nat)
    requires Rel(g, code, m, r) && m.mode.Hosting? && delta <= MAX
    requires Rel(g, code, Advance(g, code, m, Rebound(delta)), r)
    ensures var m', limit := Advance(g, code, m, Rebound(delta)), LimitFrom(g, code, m, r, delta);
            && m'.mode.Hosting? && m'.frames == m.frames && r.count <= limit
            && Wrap(m'.mem.bound) == Wrap(limit)
            && -MAX - 1 <= Level(g, code, m', r, limit)
  {
    hide FrameOk, Matches, Waiting;
    BoundSetTo(Advance(g, code, m, Rebound(delta)).mem.bound, delta, 0, r.count);
  }

  lemma ExpiredRebounds<D>(g: Guest<D>, code: seq<Compiled>, m: Machine<D>, r: Run<D>, delta: nat)
    requires Rel(g, code, m, r) && m.mode.BoundExpired? && delta <= MAX
    requires Rel(g, code, Advance(g, code, m, Rebound(delta)), r)
    ensures var m', limit := Advance(g, code, m, Rebound(delta)), LimitFrom(g, code, m, r, delta);
            && m'.mode.Going? && m'.frames == m.frames && r.count <= limit
            && Wrap(m'.mem.bound) == Wrap(limit)
            && -MAX - 1 <= Level(g, code, m', r, limit)
            && Gate(g, code, m'.Top(), m'.mem)
  {
    hide FrameOk, Matches, Balanced, Gate, Level, Wrap;
    ResumesGated(g, code, Advance(g, code, m, Rebound(delta)), r, delta, LimitFrom(g, code, m, r, delta));
  }

  lemma ResumesGated<D>(g: Guest<D>, code: seq<Compiled>, m: Machine<D>, r: Run<D>, delta: nat, limit: int)
    requires Rel(g, code, m, r) && m.mode.Going? && m.mem.adj == 0 - delta
    requires var f := m.Top();
             && f.k > 0 && code[f.func].code[f.at.pc][f.k - 1].Yield?
             && limit == r.count + delta + PriceAt(code[f.func], f.at.pc)
    ensures Wrap(m.mem.bound) == Wrap(limit)
    ensures Level(g, code, m, r, limit) == 0 - delta
    ensures Gate(g, code, m.Top(), m.mem)
  {
    var f := m.Top();
    PaidInAdvance(g, code, f);
    BoundSetTo(m.mem.bound, delta, OwedAt(code[f.func], f.at.pc, f.k), r.count);
    AfterYield(g, code, f);
  }

  lemma AfterYield<D>(g: Guest<D>, code: seq<Compiled>, f: CallFrame)
    requires FrameOk(g, code, f) && f.k > 0 && code[f.func].code[f.at.pc][f.k - 1].Yield?
    ensures f.k == SourceAt(code[f.func], f.at.pc) - 1 && ChecksAt(code[f.func], f.at.pc)
  {
    Upcoming(g, code, f.(k := f.k - 1));
    if f.at.pc < |code[f.func].ops| {
      Shape(code[f.func], f.at.pc);
    }
  }

  lemma EntryStartsSlice<D>(
      g: Guest<D>, code: seq<Compiled>, f: nat, data: D, mem: Counter, count: nat, length: nat, cost: nat)
    requires Settings(g, code, length, cost) && Ready(g, code, f, mem, count) && mem.adj <= 0 && g.maxDepth > 0
    ensures InSlice(g, code, Boot(f, data, mem), Start(f, data, count), count - mem.adj)
  {
    var m, r := Boot(f, data, mem), Start(f, data, count);
    RunSimulates(g, code, f, data, mem, count, []);
    EntryOk(g, code, f);
    BoundSetTo(mem.bound, 0 - mem.adj, 0, count);
    BelowLimit(g, code, m, r, count - mem.adj, length, cost);
  }

  // ---- Every slice of every run ----

  /** A slice starts with the entry into the guest, or with a bound set when the guest is suspended after
      the events `es`: because its bound has expired, or inside an imported function. */
  datatype Origin = Entry | Resumption(es: seq<Event>, delta: nat)

  function Began<D>(g: Guest<D>, code: seq<Compiled>, boot: Machine<D>, o: Origin): Machine<D> {
    match o
    case Entry => boot
    case Resumption(es, delta) => Advance(g, code, Play(g, code, boot, es), Rebound(delta))
  }

  predicate Begins<D>(g: Guest<D>, code: seq<Compiled>, boot: Machine<D>, o: Origin) {
    match o
    case Entry => boot.mem.adj <= 0
    case Resumption(es, delta) =>
      var m := Play(g, code, boot, es);
      (m.mode.BoundExpired? || m.mode.Hosting?) && delta <= MAX
  }

  /** The count may rise by no more than this before the bound is reached. */
  function Budget(mem: Counter, o: Origin): int {
    match o
    case Entry => 0 - mem.adj
    case Resumption(_, delta) => delta + 2
  }

  /** `limit` is the absolute count at which the bound expires. */
  lemma SliceBegins<D>(
      g: Guest<D>, code: seq<Compiled>, f: nat, data: D, mem: Counter, count: nat, o: Origin, length: nat, cost: nat)
    returns (limit: int)
    requires Settings(g, code, length, cost) && Ready(g, code, f, mem, count) && g.maxDepth > 0
    requires Begins(g, code, Boot(f, data, mem), o)
    ensures var m := Began(g, code, Boot(f, data, mem), o);
            var r := Steps(g, Start(f, data, count), m.retired);
            InSlice(g, code, m, r, limit) && r.count <= limit <= r.count + Budget(mem, o)
  {
    hide Advance, InSlice, Step, Settings, Rel, Ready, LimitFrom;
    match o
    case Entry =>
      EntryStartsSlice(g, code, f, data, mem, count, length, cost);
      limit := count - mem.adj;
    case Resumption(es, delta) =>
      var m := Play(g, code, Boot(f, data, mem), es);
      var r := Steps(g, Start(f, data, count), m.retired);
      RunSimulates(g, code, f, data, mem, count, es);
      DepthHolds(g, code, Boot(f, data, mem), es);
      ReboundStartsSlice(g, code, m, r, delta, length, cost);
      limit := LimitFrom(g, code, m, r, delta);
      LimitIsNear(g, code, m, r, delta);
      ReboundRetiresNothing(g, code, m, delta);
  }

  lemma ReboundRetiresNothing<D>(g: Guest<D>, code: seq<Compiled>, m: Machine<D>, delta: nat)
    ensures Advance(g, code, m, Rebound(delta)).retired == m.retired
  {
  }

  lemma PotentialGrows<D>(code: seq<Compiled>, m: Machine<D>, b: int, b': int, length: nat)
    requires 0 <= b <= b'
    ensures Potential(code, m, b, length) <= Potential(code, m, b', length)
  {
    TimesGrows(b, b', length + 1);
  }

  /** Every slice of every run ends: whatever happened before, and however the slice starts, control is back
      with the host within a number of steps known when it starts. */
  lemma EverySliceEnds<D>(
      g: Guest<D>, code: seq<Compiled>, f: nat, data: D, mem: Counter, count: nat, o: Origin,
      n: nat, length: nat, cost: nat)
    requires Settings(g, code, length, cost) && Ready(g, code, f, mem, count) && g.maxDepth > 0
    requires Begins(g, code, Boot(f, data, mem), o)
    requires n > Potential(code, Began(g, code, Boot(f, data, mem), o), Budget(mem, o), length)
    ensures !Live(Coast(g, code, Began(g, code, Boot(f, data, mem), o), n))
  {
    var limit := SliceBegins(g, code, f, data, mem, count, o, length, cost);
    hide Began, Begins, InSlice, Potential, Settings, Ready, Coast, Budget, Steps;
    var m := Began(g, code, Boot(f, data, mem), o);
    var r := Steps(g, Start(f, data, count), m.retired);
    PotentialGrows(code, m, limit - r.count, Budget(mem, o), length);
    SliceEnds(g, code, m, r, limit, n, length, cost);
  }

  // ---- The overshoot ----

  /** The static body cost of all activations on a stack. */
  function StackCost(code: seq<Compiled>, fs: seq<CallFrame>): nat {
    if fs == [] then 0
    else StackCost(code, fs[..|fs| - 1]) + if InCode(code, fs[|fs| - 1]) then BodyCost(code[fs[|fs| - 1].func]) else 0
  }

  lemma {:induction false} ParkedRestBelowCost<D>(g: Guest<D>, code: seq<Compiled>, fs: seq<CallFrame>)
    requires forall i | 0 <= i < |fs| :: Parked(g, code, fs[i])
    ensures ParkedRest(g, code, fs) <= StackCost(code, fs)
  {
    if fs != [] {
      var n := |fs| - 1;
      assert Parked(g, code, fs[n]);
      RestBelowBody(g, code, fs[n], true);
      ParkedRestBelowCost(g, code, fs[..n]);
    }
  }

  lemma RestBelowBody<D>(g: Guest<D>, code: seq<Compiled>, f: CallFrame, returning: bool)
    requires FrameOk(g, code, f) && (returning ==> Waiting(g, code, f))
    ensures FrameRest(g, code, f, returning) <= BodyCost(code[f.func])
    ensures InCode(code, f)
  {
    RestShrinks(code[f.func], 0, f.at.pc);
    RestShrinks(code[f.func], f.at.pc, f.at.pc + 1);
  }

  lemma StackRestBelowCost<D>(g: Guest<D>, code: seq<Compiled>, m: Machine<D>, r: Run<D>)
    requires Matches(g, code, m, r) && m.HasTop()
    requires FrameOk(g, code, m.Top()) && (m.mode.Hosting? ==> Waiting(g, code, m.Top()))
    ensures StackRest(g, code, m) <= StackCost(code, m.frames)
  {
    var fs := m.frames[..|m.frames| - 1];
    forall i | 0 <= i < |fs|
      ensures Parked(g, code, fs[i])
    {
      assert fs[i] == m.frames[i];
    }
    ParkedRestBelowCost(g, code, fs);
    RestBelowBody(g, code, m.Top(), m.mode.Hosting?);
  }

  /** The last point of the slice at which the count was within the bound, and what it could still be
      charged from there. */
  lemma {:induction false} LastCheckpoint<D>(
      g: Guest<D>, code: seq<Compiled>, m: Machine<D>, r: Run<D>, limit: int, n: nat, length: nat, cost: nat)
    returns (i: nat)
    requires Settings(g, code, length, cost) && InSlice(g, code, m, r, limit) && r.count <= limit
    requires Live(Coast(g, code, m, n))
    ensures i <= n
    ensures var mi, mn := Coast(g, code, m, i), Coast(g, code, m, n);
            var ri, rn := Beside(g, m, r, mi), Beside(g, m, r, mn);
            && InSlice(g, code, mi, ri, limit) && InSlice(g, code, mn, rn, limit)
            && ri.count <= limit
            && rn.count - limit + StackRest(g, code, mn) <= StackRest(g, code, mi)
  {
    hide Advance, InSlice, Potential, Step, Settings, StackRest;
    CoastInSlice(g, code, m, r, limit, n, length, cost);
    var mn := Coast(g, code, m, n);
    InSliceIsLive(g, code, mn, Beside(g, m, r, mn), limit);
    if Beside(g, m, r, mn).count <= limit {
      i := n;
    } else {
      var p := Coast(g, code, m, n - 1);
      if !Live(p) {
        OnlyTheHostRestarts(g, code, p);
      }
      i := LastCheckpoint(g, code, m, r, limit, n - 1, length, cost);
      var q := Beside(g, m, r, p);
      CoastInSlice(g, code, m, r, limit, n - 1, length, cost);
      SliceStep(g, code, p, q, limit, length, cost);
      BesideSteps(g, m, r, p, mn);
    }
  }

  /** When the bound expires, the counter has passed it by no more than the static body cost of the
      activations that were on the stack when the guest was last within the bound. */
  lemma OvershootIsBounded<D>(
      g: Guest<D>, code: seq<Compiled>, m: Machine<D>, r: Run<D>, limit: int, n: nat, length: nat, cost: nat)
    returns (i: nat)
    requires Settings(g, code, length, cost) && InSlice(g, code, m, r, limit) && r.count <= limit
    requires Live(Coast(g, code, m, n)) && Coast(g, code, m, n + 1).mode.BoundExpired?
    ensures i <= n
    ensures Beside(g, m, r, Coast(g, code, m, i)).count <= limit
    ensures 0 <= Coast(g, code, m, n + 1).mem.adj <= StackCost(code, Coast(g, code, m, i).frames)
  {
    i := LastCheckpoint(g, code, m, r, limit, n, length, cost);
    var mi, mn := Coast(g, code, m, i), Coast(g, code, m, n);
    var ri, rn := Beside(g, m, r, mi), Beside(g, m, r, mn);
    StackRestBelowCost(g, code, mi, ri);
    LevelBelowRest(g, code, mn, rn, limit);
    ExpiryReadsLevel(g, code, mn, rn, limit);
  }

  lemma {:induction false} StepsAdd<D>(g: Guest<D>, s: Run<D>, j: nat, k: nat)
    ensures Steps(g, Steps(g, s, j), k) == Steps(g, s, j + k)
  {
    hide Step;
    if k > 0 {
      StepsAdd(g, s, j, k - 1);
    }
  }

  /** Whenever a bound expires, on any run and in a slice started in any way, it has been passed by no more
      than the static body cost of the activations that were on the stack when the guest was last within it. */
  lemma EveryOvershootIsBounded<D>(
      g: Guest<D>, code: seq<Compiled>, f: nat, data: D, mem: Counter, count: nat, o: Origin,
      n: nat, length: nat, cost: nat)
    returns (limit: int, i: nat)
    requires Settings(g, code, length, cost) && Ready(g, code, f, mem, count) && g.maxDepth > 0
    requires Begins(g, code, Boot(f, data, mem), o)
    requires var m := Began(g, code, Boot(f, data, mem), o);
             Live(Coast(g, code, m, n)) && Coast(g, code, m, n + 1).mode.BoundExpired?
    ensures var m := Began(g, code, Boot(f, data, mem), o);
            && Wrap(m.mem.bound) == Wrap(limit)
            && i <= n
            && Steps(g, Start(f, data, count), Coast(g, code, m, i).retired).count <= limit
            && 0 <= Coast(g, code, m, n + 1).mem.adj <= StackCost(code, Coast(g, code, m, i).frames)
  {
    hide Began, Begins, InSlice, Settings, Ready, Coast, Budget, Steps, StackCost, Live, Start, Boot;
    limit := SliceBegins(g, code, f, data, mem, count, o, length, cost);
    var m := Began(g, code, Boot(f, data, mem), o);
    var r := Steps(g, Start(f, data, count), m.retired);
    BoundIsLimit(g, code, m, r, limit);
    i := OvershootIsBounded(g, code, m, r, limit, n, length, cost);
    CoastRetires(g, code, m, i);
    StepsAdd(g, Start(f, data, count), m.retired, Coast(g, code, m, i).retired - m.retired);
  }

  lemma BoundIsLimit<D>(g: Guest<D>, code: seq<Compiled>, m: Machine<D>, r: Run<D>, limit: int)
    requires InSlice(g, code, m, r, limit)
    ensures Wrap(m.mem.bound) == Wrap(limit)
  {
  }

  lemma {:induction false} CoastRetires<D>(g: Guest<D>, code: seq<Compiled>, m: Machine<D>, n: nat)
    ensures Coast(g, code, m, n).retired >= m.retired
    ensures Coast(g, code, m, n).mem.bound == m.mem.bound
  {
    hide Advance;
    if n > 0 {
      CoastRetires(g, code, m, n - 1);
      GoRetires(g, code, Coast(g, code, m, n - 1));
    }
  }

  lemma GoRetires<D>(g: Guest<D>, code: seq<Compiled>, m: Machine<D>)
    ensures Advance(g, code, m, Go).retired >= m.retired
    ensures Advance(g, code, m, Go).mem.bound == m.mem.bound
  {
    hide Transfer;
  }

  lemma ExpiryReadsLevel<D>(g: Guest<D>, code: seq<Compiled>, m: Machine<D>, r: Run<D>, limit: int)
    requires Built(g, code) && InSlice(g, code, m, r, limit)
    requires Advance(g, code, m, Go).mode.BoundExpired?
    ensures 0 <= Advance(g, code, m, Go).mem.adj == Level(g, code, m, r, limit)
  {
    LevelIsExact(g, code, m, r, limit);
    var f := m.Top();
    CanStep(g, code, f);
    YieldIsNext(g, code, m);
    Upcoming(g, code, f);
    AfterYield(g, code, f.(k := f.k + 1));
  }

  lemma YieldIsNext<D>(g: Guest<D>, code: seq<Compiled>, m: Machine<D>)
    requires Live(m) && m.HasTop() && Wired(g, code, m.Top())
    requires Advance(g, code, m, Go).mode.BoundExpired?
    ensures var items := code[m.Top().func].code[m.Top().at.pc];
            && m.mode.Going? && m.Top().k < |items| && items[m.Top().k].Yield?
            && Advance(g, code, m, Go).mem == m.mem
  {
  }
}
